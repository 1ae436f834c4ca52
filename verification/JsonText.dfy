/**
 * Finding the first balanced {...} in model output (model_executor.py), against a grammar of JSON texts:
 * RFC 8259, sections 2 to 7, with arbitrary whitespace and any choice of escapes.
 */
module JsonText {
  import opened Wrappers

  /** One character of a string literal, escaped or not; \uXXXX is an escaped u and four plain digits. */
  datatype Item = Plain(c: char) | Escape(c: char)

  /** A JSON text with its layout. Blank space is kept in front of and after every token. */
  datatype Json =
    | Scalar(chars: string)
    | Quoted(items: seq<Item>)
    | Array(elements: seq<Json>, pads: seq<string>)
    | Object(members: seq<(seq<Item>, Json)>, pads: seq<string>)

  predicate IsBlank(s: string) {
    forall c | c in s :: c == ' ' || c == '\t' || c == '\n' || c == '\r'
  }

  /** Numbers and the literals true, false and null use none of the characters the scanner acts on. */
  predicate IsScalar(s: string) {
    forall c | c in s :: c != '"' && c != '{' && c != '}'
  }

  predicate WellFormed(v: Json) {
    match v
    case Scalar(chars) => IsScalar(chars)
    case Quoted(items) => PlainItems(items)
    case Array(elements, pads) =>
      && (forall p | p in pads :: IsBlank(p))
      && (forall e | e in elements :: WellFormed(e))
    case Object(members, pads) =>
      && (forall p | p in pads :: IsBlank(p))
      && (forall m | m in members :: PlainItems(m.0) && WellFormed(m.1))
  }

  predicate PlainItems(items: seq<Item>) {
    forall it | it in items && it.Plain? :: it.c != '"' && it.c != '\\'
  }

  function Pad(pads: seq<string>, i: nat): string {
    if i < |pads| then pads[i] else ""
  }

  function ShowItems(items: seq<Item>): string {
    if items == [] then ""
    else (match items[0] case Plain(c) => [c] case Escape(c) => ['\\', c]) + ShowItems(items[1..])
  }

  function ShowQuoted(items: seq<Item>): string {
    "\"" + ShowItems(items) + "\""
  }

  /** The text of a value; pads[k] is the blank space at the k-th place that may hold some. */
  function Show(v: Json): string
    decreases v, (match v case Array(es, _) => |es| + 1 case Object(ms, _) => |ms| + 1 case _ => 0)
  {
    match v
    case Scalar(chars) => chars
    case Quoted(items) => ShowQuoted(items)
    case Array(elements, pads) => "[" + Pad(pads, 0) + ShowElements(v, 0) + "]"
    case Object(members, pads) => "{" + Pad(pads, 0) + ShowMembers(v, 0) + "}"
  }

  function ShowElements(v: Json, i: nat): string
    requires v.Array? && i <= |v.elements|
    decreases v, |v.elements| - i
  {
    if i == |v.elements| then ""
    else (if i > 0 then "," + Pad(v.pads, 2 * i) else "") + Show(v.elements[i]) + Pad(v.pads, 2 * i + 1)
         + ShowElements(v, i + 1)
  }

  function ShowMembers(v: Json, i: nat): string
    requires v.Object? && i <= |v.members|
    decreases v, |v.members| - i
  {
    if i == |v.members| then ""
    else (if i > 0 then "," + Pad(v.pads, 4 * i) else "") + ShowQuoted(v.members[i].0) + Pad(v.pads, 4 * i + 1)
         + ":" + Pad(v.pads, 4 * i + 2) + Show(v.members[i].1) + Pad(v.pads, 4 * i + 3)
         + ShowMembers(v, i + 1)
  }

  /** The scanner's three variables. */
  datatype Scan = Scan(depth: int, inStr: bool, esc: bool)

  const START := Scan(0, false, false)

  function Next(st: Scan, ch: char): Scan {
    if st.inStr then
      if st.esc then st.(esc := false)
      else if ch == '\\' then st.(esc := true)
      else if ch == '"' then st.(inStr := false)
      else st
    else if ch == '"' then st.(inStr := true)
    else if ch == '{' then st.(depth := st.depth + 1)
    else if ch == '}' then st.(depth := st.depth - 1)
    else st
  }

  function ScanText(st: Scan, s: string): Scan
    decreases |s|
  {
    if s == "" then st else ScanText(Next(st, s[0]), s[1..])
  }

  /** The brace depth at the end of s, counting only braces outside string literals. */
  function Depth(s: string): int {
    ScanText(START, s).depth
  }

  lemma {:induction false} ScanConcat(st: Scan, a: string, b: string)
    ensures ScanText(st, a + b) == ScanText(ScanText(st, a), b)
    decreases |a|
  {
    if a == "" {
      assert a + b == b;
    } else {
      assert (a + b)[1..] == a[1..] + b;
      ScanConcat(Next(st, a[0]), a[1..], b);
    }
  }

  /** text[start..end] opens at the first brace and is the shortest stretch from there that closes it. */
  ghost predicate FirstBalanced(text: string, start: nat, end: nat) {
    && start < end <= |text|
    && text[start] == '{' && '{' !in text[..start]
    && Depth(text[start..end]) == 0
    && forall k | start < k < end :: Depth(text[start..k]) != 0
  }

  /** What the extraction promises: that stretch if there is one, else None. */
  ghost predicate Extracts(text: string, r: Option<string>) {
    match r
    case Some(found) => exists start: nat, end: nat :: FirstBalanced(text, start, end) && found == text[start..end]
    case None => forall start: nat, end: nat :: !FirstBalanced(text, start, end)
  }

  /** The promise can always be kept, and in only one way. */
  lemma ExtractsSomething(text: string) returns (r: Option<string>)
    ensures Extracts(text, r) && forall q :: Extracts(text, q) ==> q == r
  {
    hide Depth;
    if start: nat, end: nat :| FirstBalanced(text, start, end) {
      r := Some(text[start..end]);
      forall a: nat, b: nat | FirstBalanced(text, a, b) ensures a == start && b == end {
        FirstBalancedUnique(text, a, b, start, end);
      }
    } else {
      r := None;
    }
  }

  method ExtractFirstJsonObject(text: string) returns (r: Option<string>)
    ensures Extracts(text, r)
  {
    var start := 0;
    while start < |text| && text[start] != '{'
      invariant start <= |text| && '{' !in text[..start]
    {
      start := start + 1;
    }
    if start == |text| {
      return None;
    }
    var depth, inStr, esc := 0, false, false;
    for i := start to |text|
      invariant Scan(depth, inStr, esc) == ScanText(START, text[start..i])
      invariant forall k | start < k <= i :: Depth(text[start..k]) != 0
      invariant if i == start then Scan(depth, inStr, esc) == START else depth > 0
    {
      var ch := text[i];
      ScanConcat(START, text[start..i], [ch]);
      assert text[start..i] + [ch] == text[start..i + 1];
      assert Next(Scan(depth, inStr, esc), ch) == ScanText(START, text[start..i + 1]);
      if inStr {
        if esc {
          esc := false;
        } else if ch == '\\' {
          esc := true;
        } else if ch == '"' {
          inStr := false;
        }
      } else if ch == '"' {
        inStr := true;
      } else if ch == '{' {
        depth := depth + 1;
      } else if ch == '}' {
        depth := depth - 1;
        if depth == 0 {
          assert FirstBalanced(text, start, i + 1);
          return Some(text[start..i + 1]);
        }
      }
    }
    return None;
  }

  /** The least depth met while scanning s, the start included. */
  function Low(st: Scan, s: string): int
    decreases |s|
  {
    if s == "" then st.depth
    else var rest := Low(Next(st, s[0]), s[1..]); if st.depth < rest then st.depth else rest
  }

  lemma {:induction false} LowConcat(st: Scan, a: string, b: string)
    ensures Low(st, a + b) == if Low(st, a) < Low(ScanText(st, a), b) then Low(st, a) else Low(ScanText(st, a), b)
    decreases |a|
  {
    if a == "" {
      assert a + b == b;
      LowStart(st, b);
    } else {
      assert (a + b)[1..] == a[1..] + b;
      LowConcat(Next(st, a[0]), a[1..], b);
    }
  }

  lemma LowStart(st: Scan, s: string)
    ensures Low(st, s) <= st.depth
  {
  }

  lemma {:induction false} LowBounds(st: Scan, s: string, k: nat)
    requires k <= |s|
    ensures Low(st, s) <= ScanText(st, s[..k]).depth
    decreases |s|
  {
    if k > 0 {
      assert s[..k][1..] == s[1..][..k - 1];
      LowBounds(Next(st, s[0]), s[1..], k - 1);
    }
  }

  /** Scanning s outside a string ends where it began and never goes below that depth. */
  ghost predicate Inert(d: int, s: string) {
    var st := Scan(d, false, false);
    ScanText(st, s) == st && Low(st, s) == d
  }

  lemma InertConcat(d: int, a: string, b: string)
    requires Inert(d, a) && Inert(d, b)
    ensures Inert(d, a + b)
  {
    ScanConcat(Scan(d, false, false), a, b);
    LowConcat(Scan(d, false, false), a, b);
  }

  lemma {:induction false} NeutralIsInert(d: int, s: string)
    requires forall c | c in s :: c != '"' && c != '{' && c != '}'
    ensures Inert(d, s)
  {
    if s != "" {
      assert s[0] in s && forall c | c in s[1..] :: c in s;
      NeutralIsInert(d, s[1..]);
    }
  }

  lemma PadIsInert(d: int, pads: seq<string>, i: nat)
    requires forall p | p in pads :: IsBlank(p)
    ensures Inert(d, Pad(pads, i))
  {
    assert i < |pads| ==> Pad(pads, i) in pads;
    NeutralIsInert(d, Pad(pads, i));
  }

  lemma SeparatorIsInert(d: int, pads: seq<string>, i: nat, first: bool)
    requires forall p | p in pads :: IsBlank(p)
    ensures Inert(d, if first then "" else "," + Pad(pads, i))
  {
    PadIsInert(d, pads, i);
    NeutralIsInert(d, ",");
    InertConcat(d, ",", Pad(pads, i));
  }

  lemma {:induction false} ItemsStayInside(d: int, items: seq<Item>)
    requires PlainItems(items)
    ensures var st := Scan(d, true, false);
      ScanText(st, ShowItems(items)) == st && Low(st, ShowItems(items)) == d
  {
    if items != [] {
      var head := match items[0] case Plain(c) => [c] case Escape(c) => ['\\', c];
      var st := Scan(d, true, false);
      assert PlainItems(items[1..]);
      ItemsStayInside(d, items[1..]);
      ScanConcat(st, head, ShowItems(items[1..]));
      LowConcat(st, head, ShowItems(items[1..]));
      assert items[0].Plain? ==> items[0] in items;
      assert head[1..] == "" || head[1..][1..] == "";
    }
  }

  lemma QuotedIsInert(d: int, items: seq<Item>)
    requires PlainItems(items)
    ensures Inert(d, ShowQuoted(items))
  {
    var st, body := Scan(d, false, false), ShowItems(items);
    ItemsStayInside(d, items);
    ScanConcat(st, "\"" + body, "\"");
    LowConcat(st, "\"" + body, "\"");
    assert ("\"" + body)[1..] == body;
    assert "\""[1..] == "";
  }

  /** A whole value scans back to where it began, through any nesting and any string contents. */
  lemma {:induction false} ValueIsInert(d: int, v: Json)
    requires WellFormed(v)
    ensures Inert(d, Show(v))
    decreases v, (match v case Array(es, _) => |es| + 1 case Object(ms, _) => |ms| + 2 case _ => 0)
  {
    match v
    case Scalar(chars) => NeutralIsInert(d, chars);
    case Quoted(items) => QuotedIsInert(d, items);
    case Array(elements, pads) =>
      NeutralIsInert(d, "[");
      PadIsInert(d, pads, 0);
      ElementsAreInert(d, v, 0);
      NeutralIsInert(d, "]");
      InertConcat(d, "[", Pad(pads, 0));
      InertConcat(d, "[" + Pad(pads, 0), ShowElements(v, 0));
      InertConcat(d, "[" + Pad(pads, 0) + ShowElements(v, 0), "]");
    case Object(members, pads) =>
      ObjectScan(d, v);
  }

  lemma {:induction false} ElementsAreInert(d: int, v: Json, i: nat)
    requires WellFormed(v) && v.Array? && i <= |v.elements|
    ensures Inert(d, ShowElements(v, i))
    decreases v, |v.elements| - i
  {
    if i < |v.elements| {
      var sep := if i > 0 then "," + Pad(v.pads, 2 * i) else "";
      SeparatorIsInert(d, v.pads, 2 * i, i == 0);
      ValueIsInert(d, v.elements[i]);
      PadIsInert(d, v.pads, 2 * i + 1);
      ElementsAreInert(d, v, i + 1);
      InertConcat(d, sep, Show(v.elements[i]));
      InertConcat(d, sep + Show(v.elements[i]), Pad(v.pads, 2 * i + 1));
      InertConcat(d, sep + Show(v.elements[i]) + Pad(v.pads, 2 * i + 1), ShowElements(v, i + 1));
    }
  }

  lemma {:induction false} MembersAreInert(d: int, v: Json, i: nat)
    requires WellFormed(v) && v.Object? && i <= |v.members|
    ensures Inert(d, ShowMembers(v, i))
    decreases v, |v.members| - i
  {
    if i < |v.members| {
      var m := v.members[i];
      var sep := if i > 0 then "," + Pad(v.pads, 4 * i) else "";
      SeparatorIsInert(d, v.pads, 4 * i, i == 0);
      QuotedIsInert(d, m.0);
      PadIsInert(d, v.pads, 4 * i + 1);
      NeutralIsInert(d, ":");
      PadIsInert(d, v.pads, 4 * i + 2);
      ValueIsInert(d, m.1);
      PadIsInert(d, v.pads, 4 * i + 3);
      MembersAreInert(d, v, i + 1);
      var a := sep + ShowQuoted(m.0);
      InertConcat(d, sep, ShowQuoted(m.0));
      InertConcat(d, a, Pad(v.pads, 4 * i + 1));
      var b := a + Pad(v.pads, 4 * i + 1) + ":";
      InertConcat(d, a + Pad(v.pads, 4 * i + 1), ":");
      InertConcat(d, b, Pad(v.pads, 4 * i + 2));
      InertConcat(d, b + Pad(v.pads, 4 * i + 2), Show(m.1));
      InertConcat(d, b + Pad(v.pads, 4 * i + 2) + Show(m.1), Pad(v.pads, 4 * i + 3));
      InertConcat(d, b + Pad(v.pads, 4 * i + 2) + Show(m.1) + Pad(v.pads, 4 * i + 3), ShowMembers(v, i + 1));
    }
  }

  /** An object is its opening brace, an inert body one level deeper, and its closing brace. */
  lemma {:induction false} ObjectScan(d: int, v: Json)
    requires WellFormed(v) && v.Object?
    ensures Inert(d, Show(v))
    ensures var body := Pad(v.pads, 0) + ShowMembers(v, 0);
      Show(v) == "{" + body + "}" && Inert(d + 1, body)
    decreases v, |v.members| + 1
  {
    var st, body := Scan(d, false, false), Pad(v.pads, 0) + ShowMembers(v, 0);
    PadIsInert(d + 1, v.pads, 0);
    MembersAreInert(d + 1, v, 0);
    InertConcat(d + 1, Pad(v.pads, 0), ShowMembers(v, 0));
    assert Show(v) == "{" + body + "}";
    ScanConcat(st, "{" + body, "}");
    LowConcat(st, "{" + body, "}");
    assert ("{" + body)[1..] == body;
    assert "}"[1..] == "";
  }

  lemma OpenedDepth(body: string)
    ensures Depth("{" + body) == ScanText(Scan(1, false, false), body).depth
  {
    assert ("{" + body)[1..] == body;
  }

  /** Inside the text of an object no proper prefix closes it. */
  lemma NoEarlierClose(v: Json, k: nat)
    requires WellFormed(v) && v.Object? && 0 < k < |Show(v)|
    ensures Depth(Show(v)[..k]) > 0
  {
    hide Show, ScanText, Low;
    ObjectScan(0, v);
    var body := Pad(v.pads, 0) + ShowMembers(v, 0);
    OpenedDepth(body[..k - 1]);
    assert Show(v)[..k] == "{" + body[..k - 1];
    LowBounds(Scan(1, false, false), body, k - 1);
  }

  lemma NoBraceBefore(text: string, start: nat, i: nat)
    requires i < start <= |text| && '{' !in text[..start]
    ensures text[i] != '{'
  {
    assert text[..start][i] == text[i];
  }

  lemma FirstBalancedUnique(text: string, a: nat, b: nat, c: nat, d: nat)
    requires FirstBalanced(text, a, b) && FirstBalanced(text, c, d)
    ensures a == c && b == d
  {
    if a < c {
      NoBraceBefore(text, c, a);
    } else if c < a {
      NoBraceBefore(text, a, c);
    }
  }

  /**
   * Extraction inverts printing: around any object text, after prose without an opening brace and before
   * anything at all, exactly that object is found.
   */
  lemma ExtractInvertsPrinting(before: string, v: Json, after: string, r: Option<string>)
    requires WellFormed(v) && v.Object? && '{' !in before
    ensures Extracts(before + Show(v) + after, r) <==> r == Some(Show(v))
  {
    var text, start, end := before + Show(v) + after, |before|, |before| + |Show(v)|;
    ObjectScan(0, v);
    assert text[start..end] == Show(v);
    assert text[..start] == before;
    assert text[start] == Show(v)[0];
    forall k | start < k < end
      ensures Depth(text[start..k]) != 0
    {
      assert text[start..k] == Show(v)[..k - start];
      NoEarlierClose(v, k - start);
    }
    assert FirstBalanced(text, start, end);
    forall a: nat, b: nat | FirstBalanced(text, a, b)
      ensures a == start && b == end
    {
      FirstBalancedUnique(text, a, b, start, end);
    }
  }
}
