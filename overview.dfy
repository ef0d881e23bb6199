/** The overview request: at most `MaxPapers` papers, one numbered
    "Paper i Title: ... Abstract: ..." segment each, embedded in a fixed
    instruction text and handed to the text-generation service. */
module Overview {
  import opened Wrappers
  import opened Text
  import opened Bibliography

  /** Most papers one overview prompt includes. */
  const MaxPapers: nat := 5

  /** The first `MaxPapers` papers, or all of them when there are fewer. */
  function Truncate(papers: seq<Paper>): (r: seq<Paper>)
    ensures |r| == if |papers| < MaxPapers then |papers| else MaxPapers
    ensures forall i :: 0 <= i < |r| ==> r[i] == papers[i]
  {
    if |papers| <= MaxPapers then papers else papers[..MaxPapers]
  }

  /** The fixed pieces of a paper's segment. */
  const PaperLabel: string := "Paper "
  const TitleLabel: string := " Title: "
  const AbstractLabel: string := ". Abstract: "
  const SegmentEnd: string := " "

  /** The text one paper contributes, numbered `n`. */
  function Segment(n: nat, p: Paper): string {
    PaperLabel + DecimalString(n) + TitleLabel + p.title + AbstractLabel + p.abstractText + SegmentEnd
  }

  /** The texts `f(n, ps[0])`, `f(n + 1, ps[1])`, ... concatenated. */
  function Numbered<T>(f: (nat, T) -> string, ps: seq<T>, n: nat): string
    decreases |ps|
  {
    if ps == [] then "" else f(n, ps[0]) + Numbered(f, ps[1..], n + 1)
  }

  /** The segments of `ps`, numbered from `n` on, concatenated. */
  function Segments(ps: seq<Paper>, n: nat): string {
    Numbered(Segment, ps, n)
  }

  /** Numbering two lists side by side: the second is numbered on from where the first stops. */
  lemma {:induction false} NumberedAppend<T>(f: (nat, T) -> string, a: seq<T>, b: seq<T>, n: nat)
    ensures Numbered(f, a + b, n) == Numbered(f, a, n) + Numbered(f, b, n + |a|)
    decreases |a|
  {
    if a == [] {
      assert a + b == b;
    } else {
      assert (a + b)[0] == a[0] && (a + b)[1..] == a[1..] + b;
      NumberedAppend(f, a[1..], b, n + 1);
    }
  }

  /** The numbered texts split around any one element, which carries its position as number. */
  lemma NumberedSplit<T>(f: (nat, T) -> string, ps: seq<T>, n: nat, k: nat)
    requires k < |ps|
    ensures Numbered(f, ps, n) == Numbered(f, ps[..k], n) + f(n + k, ps[k]) + Numbered(f, ps[k + 1..], n + k + 1)
  {
    var rest := [ps[k]] + ps[k + 1..];
    assert ps == ps[..k] + rest;
    NumberedAppend(f, ps[..k], rest, n);
    assert rest[0] == ps[k] && rest[1..] == ps[k + 1..];
  }

  /** Builds the paper text as the script does: one segment per paper,
      numbered from 1, appended in a loop over the first `MaxPapers` papers. */
  method PaperText(papers: seq<Paper>) returns (text: string)
    ensures text == Segments(Truncate(papers), 1)
  {
    var included := Truncate(papers);
    text := "";
    var i := 0;
    while i < |included|
      invariant 0 <= i <= |included|
      invariant text == Segments(included[..i], 1)
    {
      NumberedAppend(Segment, included[..i], [included[i]], 1);
      assert included[..i + 1] == included[..i] + [included[i]];
      text := text + Segment(i + 1, included[i]);
      i := i + 1;
    }
    assert included[..i] == included;
  }

  /** The fixed instructions placed before the paper text. */
  const Instructions: string :=
    "\nYou are assisting with a literature review.\n\n"
    + "Compare the following papers:\n"
    + "1. Identify common themes across the papers.\n"
    + "2. Highlight key differences in methods or approaches.\n"
    + "3. Note differences in assumptions or scope.\n\n"
    + "Do not rank the papers or recommend which to read.\n\n"

  /** The prompt for a paper text. */
  function Prompt(text: string): string {
    Instructions + text + "\n"
  }

  /** The prompt the overview request sends for a list of papers. */
  function OverviewPrompt(papers: seq<Paper>): string {
    Prompt(Segments(Truncate(papers), 1))
  }

  /** What the text-generation service answers: the text of the first part
      of the first candidate, `None` when that part carries no text, or a
      failure (an error raised by the call or by reading the response). */
  datatype Reply = Answer(text: Option<string>) | Failure

  /** The overview request: build the prompt and ask the service once. */
  method AiOverview(papers: seq<Paper>, generate: string -> Reply) returns (reply: Reply)
    ensures reply == generate(OverviewPrompt(papers))
  {
    var text := PaperText(papers);
    reply := generate(Prompt(text));
  }

  /** A paper's segment carries its title and its abstract. */
  lemma SegmentCarriesPaper(n: nat, p: Paper)
    ensures IsSubstring(p.title, Segment(n, p))
    ensures IsSubstring(p.abstractText, Segment(n, p))
  {
    var prefix := PaperLabel + DecimalString(n) + TitleLabel;
    assert Segment(n, p) == prefix + p.title + (AbstractLabel + p.abstractText + SegmentEnd);
    InfixIsSubstring(prefix, p.title, AbstractLabel + p.abstractText + SegmentEnd);
    assert Segment(n, p) == (prefix + p.title + AbstractLabel) + p.abstractText + SegmentEnd;
    InfixIsSubstring(prefix + p.title + AbstractLabel, p.abstractText, SegmentEnd);
  }

  /** Each of the first `MaxPapers` papers appears in the prompt as its
      segment numbered by its position from 1. */
  lemma PromptIncludesSegment(papers: seq<Paper>, k: nat)
    requires k < |papers| && k < MaxPapers
    ensures IsSubstring(Segment(k + 1, papers[k]), OverviewPrompt(papers))
  {
    var included := Truncate(papers);
    var seg := Segment(k + 1, papers[k]);
    var text := Segments(included, 1);
    assert included[k] == papers[k];
    NumberedSplit(Segment, included, 1, k);
    assert text == Segments(included[..k], 1) + seg + Segments(included[k + 1..], k + 2);
    InfixIsSubstring(Segments(included[..k], 1), seg, Segments(included[k + 1..], k + 2));
    PromptCarriesText(text);
    SubstringTransitive(seg, text, Prompt(text));
  }

  /** The prompt embeds the paper text whole. */
  lemma PromptCarriesText(text: string)
    ensures IsSubstring(text, Prompt(text))
  {
    InfixIsSubstring(Instructions, text, "\n");
  }

  /** The title and the abstract of each of the first `MaxPapers` papers appear in the prompt. */
  lemma PromptIncludesPaper(papers: seq<Paper>, k: nat)
    requires k < |papers| && k < MaxPapers
    ensures IsSubstring(papers[k].title, OverviewPrompt(papers))
    ensures IsSubstring(papers[k].abstractText, OverviewPrompt(papers))
  {
    var seg := Segment(k + 1, papers[k]);
    PromptIncludesSegment(papers, k);
    SegmentCarriesPaper(k + 1, papers[k]);
    SubstringTransitive(papers[k].title, seg, OverviewPrompt(papers));
    SubstringTransitive(papers[k].abstractText, seg, OverviewPrompt(papers));
  }

  /** Papers past the first `MaxPapers` are silently dropped: they do not change the prompt. */
  lemma PromptIgnoresExcess(papers: seq<Paper>, extra: seq<Paper>)
    requires |papers| >= MaxPapers
    ensures OverviewPrompt(papers + extra) == OverviewPrompt(papers)
  {
    assert Truncate(papers + extra) == Truncate(papers);
  }

  /** The same paper under two different numbers gives two different
      segments: the rendered number tells them apart. */
  lemma SegmentNumbersDiffer(m: nat, n: nat, p: Paper)
    requires m != n
    ensures Segment(m, p) != Segment(n, p)
  {
    if Segment(m, p) == Segment(n, p) {
      assert |DecimalString(m)| == |DecimalString(n)|;
      assert DecimalString(m) == Segment(m, p)[6..6 + |DecimalString(m)|];
      assert DecimalString(n) == Segment(n, p)[6..6 + |DecimalString(n)|];
      DecimalInjective(m, n);
    }
  }
}
