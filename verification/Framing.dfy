/** The byte stream both snapshot digests hash: path, NUL, decimal length, NUL, data, per file. */
module Framing {
  import opened DecimalNotation
  import opened Options

  type byte = b: int | 0 <= b < 256
  type Bytes = seq<byte>

  datatype Record = Record(path: Bytes, data: Bytes)

  const ZERO: byte := 48

  /** `str(n).encode("ascii")`. */
  function Decimal(n: nat): (r: Bytes)
    ensures IsNumber(r)
  {
    var digits := Digits(n);
    seq(|digits|, i requires 0 <= i < |digits| => ZERO + digits[i])
  }

  predicate IsNumber(s: Bytes) {
    s != [] && forall i :: 0 <= i < |s| ==> ZERO <= s[i] <= ZERO + 9
  }

  /** `int` of a text of digits. */
  function Value(s: Bytes): nat
    requires IsNumber(s)
  {
    Number(seq(|s|, i requires 0 <= i < |s| => (s[i] - ZERO) as digit))
  }

  lemma ValueOfDecimal(n: nat)
    ensures Value(Decimal(n)) == n
  {
    var s := Decimal(n);
    assert seq(|s|, i requires 0 <= i < |s| => (s[i] - ZERO) as digit) == Digits(n);
    NumberOfDigits(n);
  }

  function FrameOne(r: Record): Bytes {
    r.path + [0] + Decimal(|r.data|) + [0] + r.data
  }

  function Frame(records: seq<Record>): Bytes {
    if records == [] then [] else Frame(records[..|records| - 1]) + FrameOne(records[|records| - 1])
  }

  lemma {:induction false} FrameFront(records: seq<Record>)
    requires records != []
    ensures Frame(records) == FrameOne(records[0]) + Frame(records[1..])
  {
    hide FrameOne;
    var n := |records| - 1;
    if n == 0 {
      assert records[..0] == [] && records[1..] == [];
    } else {
      FrameFront(records[..n]);
      assert records[..n][1..] == records[1..][..n - 1];
      assert records[1..][n - 1] == records[n];
    }
  }

  // ---------------------------------------------------------------- reading it back

  /** Where the first NUL is; the length if there is none. */
  function FirstNul(s: Bytes): (i: nat)
    ensures i <= |s|
  {
    if s == [] || s[0] == 0 then 0 else 1 + FirstNul(s[1..])
  }

  predicate NulFree(s: Bytes) {
    forall k :: 0 <= k < |s| ==> s[k] != 0
  }

  /** A text and a rest joined by NUL come apart at the first NUL. */
  lemma {:induction false} FirstNulAt(a: Bytes, b: Bytes)
    requires NulFree(a)
    ensures var s := a + [0] + b; FirstNul(s) == |a| && s[..|a|] == a && s[|a| + 1..] == b
  {
    var s := a + [0] + b;
    if a != [] {
      FirstNulAt(a[1..], b);
      assert s[1..] == a[1..] + [0] + b;
    }
  }

  /** A text up to the first NUL and what follows it. */
  function Cut(s: Bytes): (r: Option<(Bytes, Bytes)>)
    ensures r.Some? ==> |r.value.0| + |r.value.1| < |s|
  {
    var i := FirstNul(s);
    if i == |s| then None else Some((s[..i], s[i + 1..]))
  }

  lemma CutAt(a: Bytes, b: Bytes)
    requires NulFree(a)
    ensures Cut(a + [0] + b) == Some((a, b))
  {
    FirstNulAt(a, b);
  }

  /** One record off the front of a stream. */
  function ParseOne(s: Bytes): (r: Option<(Record, Bytes)>)
    ensures r.Some? ==> |r.value.1| < |s|
  {
    match Cut(s)
    case None => None
    case Some((path, rest)) =>
      match Cut(rest)
      case None => None
      case Some((digits, body)) =>
        if !IsNumber(digits) || Value(digits) > |body| then None
        else Some((Record(path, body[..Value(digits)]), body[Value(digits)..]))
  }

  function Parse(s: Bytes): Option<seq<Record>>
    decreases |s|
  {
    if s == [] then Some([])
    else
      match ParseOne(s)
      case None => None
      case Some((record, rest)) =>
        match Parse(rest)
        case None => None
        case Some(records) => Some([record] + records)
  }

  lemma ParseOneFrame(r: Record, tail: Bytes)
    requires NulFree(r.path)
    ensures ParseOne(FrameOne(r) + tail) == Some((r, tail))
  {
    var digits := Decimal(|r.data|);
    var body := r.data + tail;
    assert FrameOne(r) + tail == r.path + [0] + (digits + [0] + body);
    ValueOfDecimal(|r.data|);
    CutAt(r.path, digits + [0] + body);
    CutAt(digits, body);
    assert body[..|r.data|] == r.data && body[|r.data|..] == tail;
    hide Decimal, Value, Cut, FrameOne;
  }

  /** Main result: the stream parses back to exactly the records it was made from. */
  lemma {:induction false} ParseFrame(records: seq<Record>)
    requires forall i :: 0 <= i < |records| ==> NulFree(records[i].path)
    ensures Parse(Frame(records)) == Some(records)
  {
    if records != [] {
      FrameFront(records);
      ParseFrame(records[1..]);
      ParseOneFrame(records[0], Frame(records[1..]));
      assert [records[0]] + records[1..] == records;
    }
  }

  /** Different lists of files are different hash inputs. */
  lemma FrameInjective(a: seq<Record>, b: seq<Record>)
    requires forall i :: 0 <= i < |a| ==> NulFree(a[i].path)
    requires forall i :: 0 <= i < |b| ==> NulFree(b[i].path)
    requires Frame(a) == Frame(b)
    ensures a == b
  {
    ParseFrame(a);
    ParseFrame(b);
  }
}
