/** The `field:code,` tokens the wizard appends to the mapping string, where a
    code is `aN` (axis N), `bN` (button N) or `hH.V` (hat H at raw position V),
    and a parser that reads a run of tokens back. */
module Tokens {
  import opened Types
  import opened Decimal
  import opened StepScript

  /** The code of a bound control, as interpolated at main.swift lines 235, 255, 272. */
  function Code(b: Binding): (r: string)
    requires b != Unbound
    ensures |r| >= 2 && r[0] in "abh"
    ensures forall i :: 0 <= i < |r| ==> r[i] != ',' && r[i] != ':'
  {
    match b
    case Axis(a) => "a" + Dec(a as nat)
    case Button(n) => "b" + Dec(n as nat)
    case Hat(h, v) => "h" + Dec(h as nat) + "." + Dec(v as nat)
  }

  /** The text appended for a binding of the step named `field`. */
  function TokenText(field: string, b: Binding): string
    requires b != Unbound
  {
    field + ":" + Code(b) + ","
  }

  /** The wire form of axis and hat tokens: the axis numeral in decimal, and
      the hat id before its raw position. */
  lemma CodeExamples()
    ensures TokenText("b", Axis(12)) == "b:a12,"
    ensures TokenText("b", Hat(1, 4)) == "b:h1.4,"
  {
  }

  /** A token of the mapping string: which step of the script, its field
      name, and the control bound to it. */
  datatype Token = Token(index: nat, field: string, binding: Binding)

  predicate ValidToken(t: Token) {
    IsFieldName(t.field) && t.binding != Unbound
  }

  predicate AllValid(ts: seq<Token>) {
    forall i :: 0 <= i < |ts| ==> ValidToken(ts[i])
  }

  /** Every token carries a control, so it has text. */
  predicate AllBound(ts: seq<Token>) {
    forall i :: 0 <= i < |ts| ==> ts[i].binding != Unbound
  }

  function RenderToken(t: Token): string
    requires t.binding != Unbound
  {
    TokenText(t.field, t.binding)
  }

  /** The tokens written one after another, the way the wizard appends them. */
  function Render(ts: seq<Token>): string
    requires AllBound(ts)
    decreases |ts|
  {
    if ts == [] then "" else Render(ts[..|ts| - 1]) + RenderToken(ts[|ts| - 1])
  }

  /** What a reader of the mapping string sees of a token: field name and binding. */
  function Entries(ts: seq<Token>): (r: seq<(string, Binding)>)
    requires AllValid(ts)
    ensures |r| == |ts|
    ensures forall i :: 0 <= i < |ts| ==> r[i] == (ts[i].field, ts[i].binding)
    decreases |ts|
  {
    if ts == [] then [] else Entries(ts[..|ts| - 1]) + [(ts[|ts| - 1].field, ts[|ts| - 1].binding)]
  }

  /** Position of the first `c` in `s`, or |s| when there is none. */
  function FindFirst(s: string, c: char): (r: nat)
    ensures r <= |s|
    ensures forall i :: 0 <= i < r ==> s[i] != c
    ensures r < |s| ==> s[r] == c
    decreases |s|
  {
    if |s| == 0 then 0 else if s[0] == c then 0 else 1 + FindFirst(s[1..], c)
  }

  /** Length of the longest prefix of `s` that ends in `c` (0 when `c` is absent). */
  function PrefixThrough(s: string, c: char): (r: nat)
    ensures r <= |s|
    ensures r > 0 ==> s[r - 1] == c
    ensures forall i :: r <= i < |s| ==> s[i] != c
    decreases |s|
  {
    if |s| == 0 then 0 else if s[|s| - 1] == c then |s| else PrefixThrough(s[..|s| - 1], c)
  }

  function ParseByte(s: string): (r: Option<uint8>)
    ensures r.Some? ==> AllDigits(s)
  {
    match ParseDec(s)
    case Some(n) => if n < 256 then Some(n as uint8) else None
    case None => None
  }

  function ParseCode(c: string): Option<Binding>
  {
    if |c| == 0 then None
    else if c[0] == 'a' then
      match ParseByte(c[1..]) case Some(n) => Some(Axis(n)) case None => None
    else if c[0] == 'b' then
      match ParseByte(c[1..]) case Some(n) => Some(Button(n)) case None => None
    else if c[0] == 'h' then
      var d := FindFirst(c[1..], '.');
      if d == |c[1..]| then None
      else
        match (ParseByte(c[1..][..d]), ParseByte(c[1..][d + 1..]))
        case (Some(h), Some(v)) => Some(Hat(h, v))
        case _ => None
    else None
  }

  /** One token without its trailing comma: `field:code`. */
  function ParseEntry(seg: string): Option<(string, Binding)>
  {
    var k := FindFirst(seg, ':');
    if k == |seg| then None
    else
      match ParseCode(seg[k + 1..])
      case Some(b) => Some((seg[..k], b))
      case None => None
  }

  /** Reads a run of comma-terminated tokens, last token first. */
  function ParseTokens(s: string): Option<seq<(string, Binding)>>
    decreases |s|
  {
    if |s| == 0 then Some([])
    else if s[|s| - 1] != ',' then None
    else
      var p := PrefixThrough(s[..|s| - 1], ',');
      match (ParseTokens(s[..p]), ParseEntry(s[p..|s| - 1]))
      case (Some(front), Some(e)) => Some(front + [e])
      case _ => None
  }

  lemma {:induction false} FindFirstAfter(a: string, c: char, b: string)
    requires forall i :: 0 <= i < |a| ==> a[i] != c
    ensures FindFirst(a + [c] + b, c) == |a|
    decreases |a|
  {
    if |a| > 0 {
      assert (a + [c] + b)[1..] == a[1..] + [c] + b;
      FindFirstAfter(a[1..], c, b);
    }
  }

  lemma ParseByteRoundTrip(n: uint8)
    ensures ParseByte(Dec(n as nat)) == Some(n)
  {
    ParseDecRoundTrip(n as nat);
  }

  lemma ByteCodeRoundTrip(tag: char, n: uint8)
    ensures ("" + [tag] + Dec(n as nat))[1..] == Dec(n as nat)
    ensures ParseByte(("" + [tag] + Dec(n as nat))[1..]) == Some(n)
  {
    assert ("" + [tag] + Dec(n as nat))[1..] == Dec(n as nat);
    ParseByteRoundTrip(n);
  }

  lemma HatCodeRoundTrip(h: uint8, v: uint8)
    ensures ParseCode(Code(Hat(h, v))) == Some(Hat(h, v))
  {
    ParseByteRoundTrip(h);
    ParseByteRoundTrip(v);
    HatTextRoundTrip(Dec(h as nat), Dec(v as nat), h, v);
    assert Code(Hat(h, v)) == "h" + Dec(h as nat) + "." + Dec(v as nat);
  }

  /** `hH.V` with digit runs H and V reads back as hat H at position V. */
  lemma HatTextRoundTrip(dh: string, dv: string, h: uint8, v: uint8)
    requires AllDigits(dh) && ParseByte(dh) == Some(h) && ParseByte(dv) == Some(v)
    ensures ParseCode("h" + dh + "." + dv) == Some(Hat(h, v))
  {
    var c := "h" + dh + "." + dv;
    assert c[1..] == dh + ['.'] + dv;
    FindFirstAfter(dh, '.', dv);
    assert c[1..][..|dh|] == dh;
    assert c[1..][|dh| + 1..] == dv;
  }

  /** Every code reads back as the binding it was written from. */
  lemma CodeRoundTrip(b: Binding)
    requires b != Unbound
    ensures ParseCode(Code(b)) == Some(b)
  {
    match b
    case Axis(a) =>
      ByteCodeRoundTrip('a', a);
      assert Code(b) == "" + ['a'] + Dec(a as nat);
    case Button(n) =>
      ByteCodeRoundTrip('b', n);
      assert Code(b) == "" + ['b'] + Dec(n as nat);
    case Hat(h, v) =>
      HatCodeRoundTrip(h, v);
  }

  lemma EntryRoundTrip(field: string, b: Binding)
    requires IsFieldName(field) && b != Unbound
    ensures ParseEntry(field + ":" + Code(b)) == Some((field, b))
  {
    var seg := field + ":" + Code(b);
    assert seg == field + [':'] + Code(b);
    FindFirstAfter(field, ':', Code(b));
    assert seg[|field| + 1..] == Code(b);
    assert seg[..|field|] == field;
    CodeRoundTrip(b);
  }

  lemma RenderEmptyOrComma(ts: seq<Token>)
    requires AllBound(ts)
    ensures ts == [] <==> |Render(ts)| == 0
    ensures ts != [] ==> Render(ts)[|Render(ts)| - 1] == ','
  {
  }

  /** Reading a rendered run of tokens gives back each token's field name and
      binding, in order. */
  lemma {:induction false} ParseRenderRoundTrip(ts: seq<Token>)
    requires AllValid(ts)
    ensures ParseTokens(Render(ts)) == Some(Entries(ts))
    decreases |ts|
  {
    if ts != [] {
      var front := ts[..|ts| - 1];
      var t := ts[|ts| - 1];
      assert AllValid(front) && ValidToken(t);
      var seg := t.field + ":" + Code(t.binding);
      var a := Render(front);
      assert Render(ts) == a + seg + [','] by {
        assert Render(ts) == a + RenderToken(t);
        assert RenderToken(t) == seg + [','];
      }
      assert forall i :: 0 <= i < |seg| ==> seg[i] != ',';
      RenderEmptyOrComma(front);
      ParseSnoc(a, seg);
      ParseRenderRoundTrip(front);
      EntryRoundTrip(t.field, t.binding);
      assert Entries(ts) == Entries(front) + [(t.field, t.binding)];
    }
  }

  /** One appended token reads back as its field name and binding. */
  lemma TokenTextRoundTrip(field: string, b: Binding)
    requires IsFieldName(field) && b != Unbound
    ensures ParseTokens(TokenText(field, b)) == Some([(field, b)])
  {
    var seg := field + ":" + Code(b);
    assert forall i :: 0 <= i < |seg| ==> seg[i] != ',';
    EntryRoundTrip(field, b);
    OneSegment(seg, (field, b));
    assert TokenText(field, b) == seg + [','];
  }

  /** A lone comma-terminated segment is read as its one entry. */
  lemma OneSegment(seg: string, e: (string, Binding))
    requires forall i :: 0 <= i < |seg| ==> seg[i] != ','
    requires ParseEntry(seg) == Some(e)
    ensures ParseTokens(seg + [',']) == Some([e])
  {
    var s := seg + [','];
    assert s[..|s| - 1] == "" + seg;
    PrefixThroughAfter("", seg);
    var p := PrefixThrough(s[..|s| - 1], ',');
    assert p == 0;
    assert s[..p] == [] && s[p..|s| - 1] == seg;
    assert ParseTokens(s[..p]) == Some([]);
    assert ParseTokens(s) == Some([] + [e]);
    assert [] + [e] == [e];
  }

  /** One more comma-terminated segment behind a run of whole tokens is read
      as one more entry. */
  lemma ParseSnoc(a: string, seg: string)
    requires |a| == 0 || a[|a| - 1] == ','
    requires forall i :: 0 <= i < |seg| ==> seg[i] != ','
    ensures ParseTokens(a + seg + [',']) ==
              if ParseTokens(a).Some? && ParseEntry(seg).Some?
              then Some(ParseTokens(a).value + [ParseEntry(seg).value])
              else None
  {
    var s := a + seg + [','];
    PrefixThroughAfter(a, seg);
    assert s[..|s| - 1] == a + seg;
    assert s[..|a|] == a;
    assert s[|a|..|s| - 1] == seg;
  }

  lemma PrefixThroughAfter(a: string, seg: string)
    requires |a| == 0 || a[|a| - 1] == ','
    requires forall i :: 0 <= i < |seg| ==> seg[i] != ','
    ensures PrefixThrough(a + seg, ',') == |a|
    decreases |seg|
  {
    if |seg| > 0 {
      assert (a + seg)[..|a + seg| - 1] == a + seg[..|seg| - 1];
      PrefixThroughAfter(a, seg[..|seg| - 1]);
    } else {
      assert a + seg == a;
    }
  }
}
