/** Shared vocabulary: optional values, the two ways a Rust operation of the
    crate fails, and the string helpers (`split`, `split_once`, decimal
    rendering) the crate uses on names. */
module Support {

  datatype Option<+T> = None | Some(value: T)

  /** A `panic!`, `todo!`, `unreachable!`, an `unwrap` of `None`/`Err` or an
      arithmetic overflow (checked, as in a debug build) is a `Panic`; an
      `Err(PyErr)` handed back to Python is a `Raise`. */
  datatype Error = Panic(msg: string) | Raise(msg: string)

  datatype Result<+T> = Ok(value: T) | Err(error: Error) {
    predicate IsFailure() { Err? }

    function PropagateFailure<U>(): Result<U>
      requires Err?
    {
      Err(error)
    }

    function Extract(): T
      requires Ok?
    {
      value
    }
  }

  /** `option.unwrap()`: a missing value panics. */
  function Unwrap<T>(o: Option<T>, msg: string): Result<T>
  {
    match o
    case Some(v) => Ok(v)
    case None => Err(Panic(msg))
  }

  // ---------------------------------------------------------------------
  // str::split

  /** Rust's `s.split(sep)`: the pieces between separators, empty ones
      included (`""` gives `[""]`, `"a/"` gives `["a", ""]`). */
  function Split(s: string, sep: char): (r: seq<string>)
    ensures |r| >= 1
  {
    if s == [] then [[]]
    else
      var rest := Split(s[1..], sep);
      if s[0] == sep then [[]] + rest
      else [[s[0]] + rest[0]] + rest[1..]
  }

  /** The inverse of `Split`: the pieces glued back with the separator. */
  function Join(pieces: seq<string>, sep: char): string
  {
    if pieces == [] then []
    else if |pieces| == 1 then pieces[0]
    else pieces[0] + [sep] + Join(pieces[1..], sep)
  }

  lemma {:induction false} JoinSplit(s: string, sep: char)
    ensures Join(Split(s, sep), sep) == s
    ensures forall i :: 0 <= i < |Split(s, sep)| ==> sep !in Split(s, sep)[i]
  {
    SplitPieces(s, sep);
    if s != [] {
      var rest := Split(s[1..], sep);
      JoinSplit(s[1..], sep);
      if s[0] == sep {
        assert Join([[]] + rest, sep) == [] + [sep] + Join(rest, sep);
      } else {
        JoinCons(s[0], rest, sep);
        assert s == [s[0]] + s[1..];
      }
    }
  }

  /** Gluing a character onto the first piece glues it onto the front. */
  lemma JoinCons(c: char, rest: seq<string>, sep: char)
    requires |rest| >= 1
    ensures Join([[c] + rest[0]] + rest[1..], sep) == [c] + Join(rest, sep)
  {
    var r := [[c] + rest[0]] + rest[1..];
    if |rest| > 1 {
      assert r[1..] == rest[1..];
      assert Join(r, sep) == [c] + rest[0] + [sep] + Join(rest[1..], sep);
    }
  }

  /** No piece holds the separator. */
  lemma {:induction false} SplitPieces(s: string, sep: char)
    ensures forall i :: 0 <= i < |Split(s, sep)| ==> sep !in Split(s, sep)[i]
  {
    if s != [] {
      SplitPieces(s[1..], sep);
    }
  }

  /** `s.split(sep).last().unwrap()`, which never fails. */
  function LastSegment(s: string, sep: char): string
  {
    var pieces := Split(s, sep);
    pieces[|pieces| - 1]
  }

  /** `s.split(sep).nth(0).unwrap()`, which never fails. */
  function FirstSegment(s: string, sep: char): string
  {
    Split(s, sep)[0]
  }

  /** Rust's `s.split_once(sep)`: the text before and after the first
      separator, or `None` when there is none. */
  function SplitOnce(s: string, sep: char): (r: Option<(string, string)>)
    ensures r.None? <==> sep !in s
    ensures r.Some? ==> s == r.value.0 + [sep] + r.value.1 && sep !in r.value.0
  {
    if s == [] then None
    else if s[0] == sep then Some(([], s[1..]))
    else
      match SplitOnce(s[1..], sep)
      case None => None
      case Some((before, after)) =>
        assert s == [s[0]] + s[1..];
        Some(([s[0]] + before, after))
  }

  lemma {:induction false} SplitOnceFirstSegment(s: string, sep: char)
    requires sep in s
    ensures SplitOnce(s, sep).Some? && SplitOnce(s, sep).value.0 == FirstSegment(s, sep)
  {
    if s[0] != sep {
      SplitOnceFirstSegment(s[1..], sep);
    }
  }

  // ---------------------------------------------------------------------
  // decimal rendering, as `format!("{}", n)`

  function DigitChar(d: nat): char
    requires d < 10
  {
    "0123456789"[d]
  }

  function NatToString(n: nat): (r: string)
    ensures |r| >= 1
    ensures forall i :: 0 <= i < |r| ==> '0' <= r[i] <= '9'
    decreases n
  {
    if n < 10 then [DigitChar(n)] else NatToString(n / 10) + [DigitChar(n % 10)]
  }

  /** Distinct numbers render as distinct strings. */
  lemma {:induction false} NatToStringInjective(n: nat, m: nat)
    requires NatToString(n) == NatToString(m)
    ensures n == m
    decreases n
  {
    var sn, sm := NatToString(n), NatToString(m);
    assert sn[|sn| - 1] == sm[|sm| - 1];
    if n < 10 && m < 10 {
      assert DigitChar(n) == DigitChar(m);
    } else if n >= 10 && m >= 10 {
      assert DigitChar(n % 10) == DigitChar(m % 10);
      assert n % 10 == m % 10;
      assert NatToString(n / 10) == sn[..|sn| - 1] == sm[..|sm| - 1] == NatToString(m / 10);
      NatToStringInjective(n / 10, m / 10);
    } else {
      assert false;
    }
  }
}
