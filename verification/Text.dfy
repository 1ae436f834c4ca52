/** Character-level helpers shared by the path checks, the executors and the redactor. */
module Text {

  /** The whitespace that str.strip removes, restricted to ASCII. */
  predicate IsSpace(c: char) {
    c == ' ' || c == '\t' || c == '\n' || c == '\r' || c == '\U{000B}' || c == '\U{000C}'
  }

  predicate IsBlank(s: string) {
    forall c | c in s :: IsSpace(c)
  }

  function StripLeft(s: string): string {
    if s != "" && IsSpace(s[0]) then StripLeft(s[1..]) else s
  }

  function StripRight(s: string): string {
    if s != "" && IsSpace(s[|s| - 1]) then StripRight(s[..|s| - 1]) else s
  }

  function Strip(s: string): string {
    StripRight(StripLeft(s))
  }

  lemma {:induction false} StripLeftParts(s: string)
    ensures exists a :: IsBlank(a) && s == a + StripLeft(s)
    ensures StripLeft(s) == "" || !IsSpace(StripLeft(s)[0])
  {
    if s != "" && IsSpace(s[0]) {
      StripLeftParts(s[1..]);
      var a :| IsBlank(a) && s[1..] == a + StripLeft(s[1..]);
      assert IsBlank([s[0]] + a) && s == ([s[0]] + a) + StripLeft(s);
    } else {
      assert IsBlank("") && s == "" + StripLeft(s);
    }
  }

  lemma {:induction false} StripRightParts(s: string)
    ensures exists b :: IsBlank(b) && s == StripRight(s) + b
    ensures StripRight(s) == "" || (!IsSpace(StripRight(s)[|StripRight(s)| - 1]) && StripRight(s)[0] == s[0])
  {
    if s != "" && IsSpace(s[|s| - 1]) {
      var t := s[..|s| - 1];
      StripRightParts(t);
      var b :| IsBlank(b) && t == StripRight(t) + b;
      assert IsBlank(b + [s[|s| - 1]]) && s == StripRight(s) + (b + [s[|s| - 1]]);
    } else {
      assert IsBlank("") && s == StripRight(s) + "";
    }
  }

  /** Stripping takes blanks off both ends, and all of them. */
  lemma StripParts(s: string) returns (a: string, b: string)
    ensures IsBlank(a) && IsBlank(b) && s == a + Strip(s) + b
    ensures Strip(s) == "" || (!IsSpace(Strip(s)[0]) && !IsSpace(Strip(s)[|Strip(s)| - 1]))
  {
    var left := StripLeft(s);
    StripLeftParts(s);
    a :| IsBlank(a) && s == a + left;
    StripRightParts(left);
    b :| IsBlank(b) && left == StripRight(left) + b;
  }

  /** What is left of a text without the blanks at its ends. */
  ghost predicate Stripped(s: string, v: string) {
    && (v == "" || (!IsSpace(v[0]) && !IsSpace(v[|v| - 1])))
    && exists a, b :: IsBlank(a) && IsBlank(b) && s == a + v + b
  }

  lemma {:induction false} StripLeftOff(a: string, rest: string)
    requires IsBlank(a) && (rest == "" || !IsSpace(rest[0]))
    ensures StripLeft(a + rest) == rest
  {
    if a == "" {
      assert a + rest == rest;
    } else {
      StripLeftOff(a[1..], rest);
      assert (a + rest)[1..] == a[1..] + rest;
    }
  }

  lemma {:induction false} StripRightOff(rest: string, b: string)
    requires IsBlank(b) && (rest == "" || !IsSpace(rest[|rest| - 1]))
    ensures StripRight(rest + b) == rest
  {
    var s := rest + b;
    if b == "" {
      assert s == rest;
    } else {
      StripRightOff(rest, b[..|b| - 1]);
      assert s[..|s| - 1] == rest + b[..|b| - 1];
    }
  }

  /** Exactly one text is left, and it is the one Strip gives. */
  lemma StripExactly(s: string)
    ensures forall v :: Stripped(s, v) <==> v == Strip(s)
  {
    var _, _ := StripParts(s);
    forall v | Stripped(s, v)
      ensures v == Strip(s)
    {
      var a, b :| IsBlank(a) && IsBlank(b) && s == a + v + b;
      if v == "" {
        StripLeftOff(s, "");
        assert s + "" == s;
      } else {
        assert s == a + (v + b);
        StripLeftOff(a, v + b);
        StripRightOff(v, b);
      }
    }
  }

  /** str.lower on ASCII letters; no other character lowers to one of them but the Kelvin sign, to 'k'. */
  function Lower(s: string): (r: string)
    ensures |r| == |s|
    ensures forall i | 0 <= i < |s| :: r[i] == if 'A' <= s[i] <= 'Z' then (s[i] as int + 32) as char else s[i]
  {
    seq(|s|, i requires 0 <= i < |s| =>
      if 'A' <= s[i] <= 'Z' then (s[i] as int + 32) as char else s[i])
  }

  /** str.split("/"): the components between slashes, always at least one. */
  function Split(s: string): (parts: seq<string>)
    ensures |parts| >= 1
  {
    if s == "" then [""]
    else if s[0] == '/' then [""] + Split(s[1..])
    else
      var rest := Split(s[1..]);
      [[s[0]] + rest[0]] + rest[1..]
  }

  /** "/".join(parts). */
  function Join(parts: seq<string>): string
    requires parts != []
  {
    if |parts| == 1 then parts[0] else parts[0] + "/" + Join(parts[1..])
  }

  lemma {:induction false} SplitHead(head: string, rest: string)
    requires '/' !in head
    ensures Split(head) == [head]
    ensures Split(head + "/" + rest) == [head] + Split(rest)
  {
    var s := head + "/" + rest;
    if head == "" {
      assert s[1..] == rest;
    } else {
      assert s[1..] == head[1..] + "/" + rest;
      SplitHead(head[1..], rest);
      assert head == [head[0]] + head[1..];
    }
  }

  /** A slash splits wherever it stands. */
  lemma {:induction false} SplitConcat(a: string, b: string)
    ensures Split(a + "/" + b) == Split(a) + Split(b)
  {
    var s := a + "/" + b;
    if a == "" {
      assert s[1..] == b;
    } else {
      assert s[1..] == a[1..] + "/" + b;
      SplitConcat(a[1..], b);
    }
  }

  /** Splitting undoes joining, as long as no part contains a slash. */
  lemma {:induction false} SplitJoin(parts: seq<string>)
    requires parts != []
    requires forall p | p in parts :: '/' !in p
    ensures Split(Join(parts)) == parts
  {
    if |parts| == 1 {
      SplitHead(parts[0], "");
    } else {
      SplitHead(parts[0], Join(parts[1..]));
      SplitJoin(parts[1..]);
    }
  }

  /** Joining undoes splitting, and no part holds a slash: the parts of a text are determined. */
  lemma {:induction false} JoinSplit(s: string)
    ensures Join(Split(s)) == s
    ensures forall p | p in Split(s) :: '/' !in p
  {
    if s != "" {
      JoinSplit(s[1..]);
      assert s == [s[0]] + s[1..];
      var rest := Split(s[1..]);
      if s[0] == '/' {
        assert Split(s)[1..] == rest;
      } else {
        assert Split(s)[1..] == rest[1..];
        assert rest == [rest[0]] + rest[1..];
      }
    }
  }

  /** What reading a file in text mode makes of its line ends: "\r\n" and a lone "\r" both become "\n". */
  function UniversalNewlines(s: string): string {
    if s == "" then ""
    else if s[0] == '\r' then
      "\n" + UniversalNewlines(if |s| > 1 && s[1] == '\n' then s[2..] else s[1..])
    else [s[0]] + UniversalNewlines(s[1..])
  }

  /** Text mode is lossless exactly on text without carriage returns. */
  lemma {:induction false} UniversalNewlinesLossless(s: string)
    ensures '\r' !in UniversalNewlines(s)
    ensures UniversalNewlines(s) == s <==> '\r' !in s
  {
    if s != "" && s[0] != '\r' {
      UniversalNewlinesLossless(s[1..]);
      assert s == [s[0]] + s[1..];
    } else if s != "" {
      UniversalNewlinesLossless(if |s| > 1 && s[1] == '\n' then s[2..] else s[1..]);
    }
  }

  /** Text up to the first carriage return is kept; that return, with or without a newline after it, becomes one. */
  lemma {:induction false} UniversalNewlinesStep(a: string, b: string)
    requires '\r' !in a
    ensures UniversalNewlines(a) == a
    ensures UniversalNewlines(a + "\r\n" + b) == a + "\n" + UniversalNewlines(b)
    ensures (b == "" || b[0] != '\n') ==> UniversalNewlines(a + "\r" + b) == a + "\n" + UniversalNewlines(b)
  {
    UniversalNewlinesLossless(a);
    var s, t := a + "\r\n" + b, a + "\r" + b;
    if a == "" {
      assert s[2..] == b && t[1..] == b;
    } else {
      UniversalNewlinesStep(a[1..], b);
      assert s[1..] == a[1..] + "\r\n" + b && t[1..] == a[1..] + "\r" + b;
      assert a == [a[0]] + a[1..];
    }
  }
}
