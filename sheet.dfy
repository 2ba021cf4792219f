/** Spreadsheet rows as the scripts read them: the two text cells of each prospect. */
module Sheet {

  /** One input row: the `company website` and `posts` cells, as text. */
  datatype SourceRow = SourceRow(companyWebsite: string, posts: string)

  function Min(a: int, b: int): int {
    if a <= b then a else b
  }

  /** `df.head(n)` for `n >= 0`: the first `n` rows, or all of them when there are fewer. */
  function Head(rows: seq<SourceRow>, n: nat): (r: seq<SourceRow>)
    ensures |r| == Min(n, |rows|)
    ensures forall i :: 0 <= i < |r| ==> r[i] == rows[i]
  {
    if n <= |rows| then rows[..n] else rows
  }
}
