/** Shared vocabulary of the two retrieval backends and the session layer:
    exceptions as a result type, Python's `str.join`, the page-by-page text
    splitter and duplicate-freedom of a list. */
module Common {

  /** The two kinds of exception the callers tell apart: `NotImplementedError`
      (a capability the backend does not offer) and every other exception. */
  datatype Error = NotImplemented | Failure

  /** A computation that either returns a value or raises. */
  datatype Result<T> = Ok(value: T) | Raised(error: Error)

  datatype Option<T> = None | Some(value: T)

  function Min(a: int, b: int): int { if a <= b then a else b }

  function Max(a: int, b: int): int { if a >= b then a else b }

  /** `sep.join(parts)` */
  function Join(parts: seq<string>, sep: string): string
  {
    if |parts| == 0 then ""
    else if |parts| == 1 then parts[0]
    else parts[0] + sep + Join(parts[1..], sep)
  }

  /** The joined text starts with the first part and ends with the last. */
  lemma {:induction false} JoinEnds(parts: seq<string>, sep: string)
    requires parts != []
    ensures var r := Join(parts, sep);
            |parts[0]| <= |r| && r[..|parts[0]|] == parts[0] &&
            |parts[|parts| - 1]| <= |r| && r[|r| - |parts[|parts| - 1]|..] == parts[|parts| - 1]
  {
    if |parts| > 1 {
      var tail := parts[1..];
      JoinEnds(tail, sep);
      var j := Join(tail, sep);
      var r := parts[0] + sep + j;
      assert Join(parts, sep) == r;
      assert r[|r| - |j|..] == j;
      assert tail[|tail| - 1] == parts[|parts| - 1];
    }
  }

  /** Joining two non-empty lists is joining each and separating the two
      results once: the parts appear in the joined text in list order. */
  lemma {:induction false} JoinAppend(a: seq<string>, b: seq<string>, sep: string)
    requires a != [] && b != []
    ensures Join(a + b, sep) == Join(a, sep) + sep + Join(b, sep)
  {
    var ab := a + b;
    assert |ab| >= 2 && ab[0] == a[0];
    if |a| == 1 {
      assert ab[1..] == b;
      assert Join(ab, sep) == a[0] + sep + Join(b, sep);
    } else {
      assert ab[1..] == a[1..] + b;
      JoinAppend(a[1..], b, sep);
      assert Join(ab, sep) == a[0] + sep + (Join(a[1..], sep) + sep + Join(b, sep));
      assert Join(a, sep) == a[0] + sep + Join(a[1..], sep);
    }
  }

  /** The chunks of a list of page texts: each page is split on its own and
      the pieces are kept in page order (the splitter itself is abstract). */
  function SplitAll(texts: seq<string>, split: string -> seq<string>): seq<string>
  {
    if texts == [] then []
    else SplitAll(texts[..|texts| - 1], split) + split(texts[|texts| - 1])
  }

  /** Number of chunks produced by the first `d` pages. */
  function Offset(texts: seq<string>, split: string -> seq<string>, d: nat): nat
    requires d <= |texts|
  {
    |SplitAll(texts[..d], split)|
  }

  predicate NoDuplicates<T(==)>(s: seq<T>)
  {
    forall i, j :: 0 <= i < j < |s| ==> s[i] != s[j]
  }
}
