/** The bibliography: paper records loaded once and never changed afterwards. */
module Bibliography {

  /** Identifier of a paper, the `id` field of a record. */
  type PaperId = int

  /** One entry of the `references` array of the bibliography file. */
  datatype Paper = Paper(
    id: PaperId,
    title: string,
    abstractText: string,
    authors: seq<string>,
    journal: string,
    year: int,
    keywords: seq<string>)

  /** The identifiers of a sequence of papers, in order. */
  function Ids(ps: seq<Paper>): (r: seq<PaperId>)
    ensures |r| == |ps|
    ensures forall i :: 0 <= i < |ps| ==> r[i] == ps[i].id
  {
    if ps == [] then [] else [ps[0].id] + Ids(ps[1..])
  }

  /** No two records of the collection share an identifier. */
  predicate UniqueIds(ps: seq<Paper>) {
    forall i, j :: 0 <= i < j < |ps| ==> ps[i].id != ps[j].id
  }
}
