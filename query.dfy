/** What the query builder's `.offset(skip).limit(limit)` and an ordering by id do to a result. */
module Query {

  /** Where `OFFSET skip` starts in `count` rows: a negative offset counts as zero. */
  function Start(skip: int, count: nat): (start: nat)
    ensures start <= count
  {
    if skip <= 0 then 0 else if skip >= count then count else skip
  }

  /** `OFFSET skip LIMIT limit`; a negative limit means no limit. */
  function Page<T>(rows: seq<T>, skip: int, limit: int): (r: seq<T>)
    ensures var start := Start(skip, |rows|);
            && |r| == (if limit < 0 || start + limit > |rows| then |rows| - start else limit)
            && forall i :: 0 <= i < |r| ==> r[i] == rows[start + i]
  {
    var rest := rows[Start(skip, |rows|)..];
    if limit < 0 || limit > |rest| then rest else rest[..limit]
  }

  /** The members of `ids` in the range `lo .. hi - 1`, in ascending order. */
  function Ascending(ids: set<int>, lo: int, hi: int): (r: seq<int>)
    ensures forall i :: 0 <= i < |r| ==> r[i] in ids && lo <= r[i] < hi
    ensures forall x :: x in ids && lo <= x < hi ==> x in r
    ensures forall i, j :: 0 <= i < j < |r| ==> r[i] < r[j]
    decreases hi - lo
  {
    if lo >= hi then []
    else if lo in ids then [lo] + Ascending(ids, lo + 1, hi)
    else Ascending(ids, lo + 1, hi)
  }

  /** The rows stored under `ids`, in that order. */
  function Rows<R>(table: map<int, R>, ids: seq<int>): (r: seq<R>)
    requires forall i :: 0 <= i < |ids| ==> ids[i] in table
    ensures |r| == |ids|
    ensures forall i :: 0 <= i < |ids| ==> r[i] == table[ids[i]]
  {
    if ids == [] then [] else [table[ids[0]]] + Rows(table, ids[1..])
  }

  /** Without an offset or a limit a page is all the rows. */
  lemma PageOfAll<T>(rows: seq<T>, skip: int, limit: int)
    ensures skip <= 0 && limit < 0 ==> Page(rows, skip, limit) == rows
  {
  }
}
