/** The names the corporate-actions registry gives its journal rows, and how the paper a row was
    written for is read back out of one. */
module RegistryNames {
  import opened Rounding

  type Hex = x: int | 0 <= x < 16
  type Uuid = u: seq<Hex> | |u| == 32 witness seq(32, _ => 0)

  const DIGITS := "0123456789abcdef"

  function HexValue(c: char): Option<Hex> {
    if '0' <= c <= '9' then Some((c - '0') as int)
    else if 'a' <= c <= 'f' then Some((c - 'a') as int + 10)
    else if 'A' <= c <= 'F' then Some((c - 'A') as int + 10)
    else None
  }

  lemma DigitValue(x: Hex)
    ensures HexValue(DIGITS[x]) == Some(x)
    ensures DIGITS[x] != '-' && DIGITS[x] != ':'
  {
  }

  function PrintHex(xs: seq<Hex>): (s: string)
    ensures |s| == |xs|
  {
    seq(|xs|, i requires 0 <= i < |xs| => DIGITS[xs[i]])
  }

  function ParseHex(s: string): (r: Option<seq<Hex>>)
    ensures r.Some? ==> |r.value| == |s|
  {
    if s == "" then Some([])
    else
      var rest := ParseHex(s[1..]);
      if HexValue(s[0]).Some? && rest.Some? then Some([HexValue(s[0]).value] + rest.value) else None
  }

  /** The canonical form: 8-4-4-4-12 digits in lower case. */
  function Print(u: Uuid): (s: string)
    ensures |s| == 36
  {
    PrintHex(u[..8]) + "-" + PrintHex(u[8..12]) + "-" + PrintHex(u[12..16]) + "-" + PrintHex(u[16..20]) + "-"
      + PrintHex(u[20..])
  }

  /** `uuid.Parse` of the canonical form. */
  function Parse(s: string): Option<Uuid> {
    if |s| != 36 || s[8] != '-' || s[13] != '-' || s[18] != '-' || s[23] != '-' then None
    else
      var digits := ParseHex(s[..8] + s[9..13] + s[14..18] + s[19..23] + s[24..]);
      if digits.Some? then Some(digits.value) else None
  }

  lemma {:induction false} HexRoundTrip(xs: seq<Hex>)
    ensures ParseHex(PrintHex(xs)) == Some(xs)
    ensures ':' !in PrintHex(xs)
    decreases |xs|
  {
    if xs == [] {
      assert PrintHex(xs) == "";
    } else {
      HexRoundTrip(xs[1..]);
      DigitValue(xs[0]);
      assert PrintHex(xs)[1..] == PrintHex(xs[1..]);
      assert xs == [xs[0]] + xs[1..];
      forall i | 0 <= i < |xs| ensures PrintHex(xs)[i] != ':' {
        DigitValue(xs[i]);
      }
    }
  }

  lemma PrintedDigits(u: Uuid)
    ensures PrintHex(u)
            == PrintHex(u[..8]) + PrintHex(u[8..12]) + PrintHex(u[12..16]) + PrintHex(u[16..20]) + PrintHex(u[20..])
  {
  }

  /** A printed id is parsed back to itself, and holds no colon. */
  lemma PrintRoundTrip(u: Uuid)
    ensures Parse(Print(u)) == Some(u)
    ensures ':' !in Print(u)
  {
    hide PrintHex, ParseHex;
    var s := Print(u);
    HexRoundTrip(u);
    HexRoundTrip(u[..8]);
    HexRoundTrip(u[8..12]);
    HexRoundTrip(u[12..16]);
    HexRoundTrip(u[16..20]);
    HexRoundTrip(u[20..]);
    assert s[..8] == PrintHex(u[..8]);
    assert s[9..13] == PrintHex(u[8..12]);
    assert s[14..18] == PrintHex(u[12..16]);
    assert s[19..23] == PrintHex(u[16..20]);
    assert s[24..] == PrintHex(u[20..]);
    PrintedDigits(u);
  }

  // ---- External ids ----

  /** `strings.Split(s, ":")`. */
  function Split(s: string): (parts: seq<string>)
    ensures |parts| > 0
  {
    if s == "" then [""]
    else if s[0] == ':' then [""] + Split(s[1..])
    else var rest := Split(s[1..]); [[s[0]] + rest[0]] + rest[1..]
  }

  lemma {:induction false} SplitOne(a: string)
    requires ':' !in a
    ensures Split(a) == [a]
    decreases |a|
  {
    if a != "" {
      assert forall c :: c in a[1..] ==> c in a;
      SplitOne(a[1..]);
      assert a == [a[0]] + a[1..];
    }
  }

  lemma {:induction false} SplitHead(a: string, b: string)
    requires ':' !in a
    ensures Split(a + ":" + b) == [a] + Split(b)
    decreases |a|
  {
    var s := a + ":" + b;
    if a == "" {
      assert s[1..] == b;
    } else {
      assert forall c :: c in a[1..] ==> c in a;
      assert s[1..] == a[1..] + ":" + b;
      SplitHead(a[1..], b);
      assert a == [a[0]] + a[1..];
    }
  }

  /** A departing leg's or a split's name: event, account and paper. */
  function ExternalId(event: Uuid, account: Uuid, instrument: Uuid): string {
    Print(event) + ":" + (Print(account) + ":" + Print(instrument))
  }

  /** The arriving leg's id: still named after the source paper. */
  function InId(event: Uuid, account: Uuid, instrument: Uuid): string {
    Print(event) + ":" + (Print(account) + ":" + (Print(instrument) + ":" + "in"))
  }

  /** The arriving leg is named by the departing one's name and the suffix. */
  lemma InIdIsSuffixed(event: Uuid, account: Uuid, instrument: Uuid)
    ensures InId(event, account, instrument) == ExternalId(event, account, instrument) + ":in"
  {
    var e, a, i := Print(event), Print(account), Print(instrument);
    assert e + ":" + (a + ":" + (i + ":" + "in")) == e + ":" + (a + ":" + i) + ":in";
  }

  /** The paper an external id names: its third part. */
  function PaperOf(name: string): Option<Uuid> {
    var parts := Split(name);
    if |parts| < 3 then None else Parse(parts[2])
  }

  lemma NameParts(event: Uuid, account: Uuid, instrument: Uuid)
    ensures Split(ExternalId(event, account, instrument)) == [Print(event), Print(account), Print(instrument)]
    ensures Split(InId(event, account, instrument)) == [Print(event), Print(account), Print(instrument), "in"]
  {
    hide Print, Split;
    PrintRoundTrip(event);
    PrintRoundTrip(account);
    PrintRoundTrip(instrument);
    var e, a, i := Print(event), Print(account), Print(instrument);
    SplitHead(e, a + ":" + i);
    SplitHead(a, i);
    SplitOne(i);
    SplitHead(e, a + ":" + (i + ":" + "in"));
    SplitHead(a, i + ":" + "in");
    SplitHead(i, "in");
    SplitOne("in");
  }

  /** The paper read back out of a row's name is the paper the row was written for, on both legs. */
  lemma PaperReadsBack(event: Uuid, account: Uuid, instrument: Uuid)
    ensures PaperOf(ExternalId(event, account, instrument)) == Some(instrument)
    ensures PaperOf(InId(event, account, instrument)) == Some(instrument)
  {
    hide Print, Parse, Split, ExternalId, InId;
    NameParts(event, account, instrument);
    PrintRoundTrip(instrument);
  }

  lemma PrintInjective(u: Uuid, v: Uuid)
    requires Print(u) == Print(v)
    ensures u == v
  {
    hide Print, Parse;
    PrintRoundTrip(u);
    PrintRoundTrip(v);
  }

  /** Rows of different events or papers never share a name, nor do the two legs of one. */
  lemma NamesDistinct(e1: Uuid, i1: Uuid, e2: Uuid, i2: Uuid, account: Uuid)
    ensures ExternalId(e1, account, i1) == ExternalId(e2, account, i2) ==> e1 == e2 && i1 == i2
    ensures InId(e1, account, i1) == InId(e2, account, i2) ==> e1 == e2 && i1 == i2
    ensures ExternalId(e1, account, i1) != InId(e2, account, i2)
  {
    hide Print, Split, ExternalId, InId;
    NameParts(e1, account, i1);
    NameParts(e2, account, i2);
    if ExternalId(e1, account, i1) == ExternalId(e2, account, i2) || InId(e1, account, i1) == InId(e2, account, i2) {
      assert Split(ExternalId(e1, account, i1))[0] == Print(e1) && Split(ExternalId(e2, account, i2))[0] == Print(e2);
      assert Split(InId(e1, account, i1))[0] == Print(e1) && Split(InId(e2, account, i2))[0] == Print(e2);
      assert Split(ExternalId(e1, account, i1))[2] == Print(i1) && Split(ExternalId(e2, account, i2))[2] == Print(i2);
      assert Split(InId(e1, account, i1))[2] == Print(i1) && Split(InId(e2, account, i2))[2] == Print(i2);
      PrintInjective(e1, e2);
      PrintInjective(i1, i2);
    }
    assert |Split(ExternalId(e1, account, i1))| == 3 && |Split(InId(e2, account, i2))| == 4;
  }
}
