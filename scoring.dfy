/** Matching and scoring one paper against a search query. The query and
    every searched field are lower-cased; a field is hit when the query
    occurs in it. */
module Scoring {
  import opened Text
  import opened Bibliography

  /** The query occurs in the title, ignoring case. */
  ghost predicate TitleHit(p: Paper, q: string) {
    IsSubstring(Lower(q), Lower(p.title))
  }

  /** The query occurs in at least one keyword, ignoring case. */
  ghost predicate KeywordHit(p: Paper, q: string) {
    exists i :: 0 <= i < |p.keywords| && IsSubstring(Lower(q), Lower(p.keywords[i]))
  }

  /** The query occurs in the abstract, ignoring case. */
  ghost predicate AbstractHit(p: Paper, q: string) {
    IsSubstring(Lower(q), Lower(p.abstractText))
  }

  /** Some keyword, lower-cased, contains `lq`: a generator scan over the keywords. */
  function AnyKeywordContains(lq: string, keywords: seq<string>): (r: bool)
    ensures r <==> exists i :: 0 <= i < |keywords| && IsSubstring(lq, Lower(keywords[i]))
  {
    if keywords == [] then false
    else
      ContainsIsSubstring(lq, Lower(keywords[0]));
      var rest := AnyKeywordContains(lq, keywords[1..]);
      assert rest <==> exists i :: 1 <= i < |keywords| && IsSubstring(lq, Lower(keywords[i])) by {
        forall i | 1 <= i < |keywords| ensures keywords[1..][i - 1] == keywords[i] { }
      }
      Contains(lq, Lower(keywords[0])) || rest
  }

  /** The filter predicate of the search: title, abstract or some keyword is hit. */
  function Matches(p: Paper, q: string): (r: bool)
    ensures r <==> TitleHit(p, q) || AbstractHit(p, q) || KeywordHit(p, q)
  {
    var lq := Lower(q);
    ContainsIsSubstring(lq, Lower(p.title));
    ContainsIsSubstring(lq, Lower(p.abstractText));
    Contains(lq, Lower(p.title)) || Contains(lq, Lower(p.abstractText)) || AnyKeywordContains(lq, p.keywords)
  }

  /** Relevance of a paper: 3 for a title hit, 2 for a keyword hit, 1 for an
      abstract hit, added independently. It is positive exactly when the paper matches. */
  function Score(p: Paper, q: string): (r: nat)
    ensures r <= 6
    ensures r == (if TitleHit(p, q) then 3 else 0) + (if KeywordHit(p, q) then 2 else 0)
                 + (if AbstractHit(p, q) then 1 else 0)
    ensures r > 0 <==> Matches(p, q)
  {
    var lq := Lower(q);
    ContainsIsSubstring(lq, Lower(p.title));
    ContainsIsSubstring(lq, Lower(p.abstractText));
    var s := 0;
    var s := if Contains(lq, Lower(p.title)) then s + 3 else s;
    var s := if AnyKeywordContains(lq, p.keywords) then s + 2 else s;
    var s := if Contains(lq, Lower(p.abstractText)) then s + 1 else s;
    s
  }

  /** Matching and scoring ignore the case of the query. */
  lemma ScoreIgnoresQueryCase(p: Paper, q: string)
    ensures Matches(p, Lower(q)) == Matches(p, q)
    ensures Score(p, Lower(q)) == Score(p, q)
  {
    LowerIdempotent(q);
  }

  /** A title hit alone outweighs a keyword hit and an abstract hit together,
      so a paper with a title hit never ranks below one without. */
  lemma TitleHitOutranks(p: Paper, p': Paper, q: string)
    requires TitleHit(p, q) && !TitleHit(p', q)
    ensures Score(p, q) >= Score(p', q)
  {
  }
}
