/** The deny list of scoped_file_executor.py, decided on the raw path text. */
module SensitivePath {
  import opened Text

  const SENSITIVE_PATH_PREFIXES: seq<string> := [
    ".git/", ".git\\", ".env", ".venv/", ".venv\\", "node_modules/", "node_modules\\",
    "dist/", "dist\\", "build/", "build\\", "__pycache__/", "__pycache__\\"
  ]

  const SENSITIVE_EXACT: set<string> :=
    {".env", ".git", ".venv", "node_modules", "dist", "build", "__pycache__"}

  /** str.replace("\\", "/"). */
  function ForwardSlashes(s: string): (r: string)
    ensures |r| == |s|
    ensures forall i | 0 <= i < |s| :: r[i] == if s[i] == '\\' then '/' else s[i]
  {
    seq(|s|, i requires 0 <= i < |s| => if s[i] == '\\' then '/' else s[i])
  }

  /** The text starts with `p`, or contains it right after a slash. */
  predicate StartsComponent(s: string, p: string) {
    p <= s || exists i :: 0 < i <= |s| && s[i - 1] == '/' && p <= s[i..]
  }

  predicate IsSensitivePath(target: string) {
    var normalized := ForwardSlashes(target);
    || normalized in SENSITIVE_EXACT
    || (exists i :: 0 <= i < |SENSITIVE_PATH_PREFIXES| &&
                    StartsComponent(normalized, ForwardSlashes(SENSITIVE_PATH_PREFIXES[i])))
    || (exists part | part in Split(normalized) :: part in SENSITIVE_EXACT)
  }

  /** What the deny list is meant to say about one component of a path. */
  predicate SensitiveComponent(part: string) {
    part in SENSITIVE_EXACT || ".env" <= part
  }

  lemma {:induction false} FirstComponent(s: string, p: string)
    requires '/' !in p
    ensures p <= s <==> p <= Split(s)[0]
    ensures p + "/" <= s ==> Split(s)[0] == p
  {
    if p == "" {
      if s != "" && s[0] != '/' {
        assert s[0] == s[0];
      }
    } else if s != "" && s[0] == p[0] {
      FirstComponent(s[1..], p[1..]);
      assert p == [p[0]] + p[1..] && s == [s[0]] + s[1..];
      assert p + "/" == [p[0]] + (p[1..] + "/");
    }
  }

  /** The text after a slash begins a component ... */
  lemma {:induction false} ComponentAt(s: string, i: nat) returns (k: nat)
    requires 0 < i <= |s| && s[i - 1] == '/'
    ensures k < |Split(s)| && Split(s)[k] == Split(s[i..])[0]
    ensures k > 0
  {
    var t := s[1..];
    if i == 1 {
      k := 1;
    } else {
      assert s[i..] == t[i - 1..];
      k := ComponentAt(t, i - 1);
      k := if s[0] == '/' then k + 1 else k;
    }
  }

  /** ... and every component but the first begins after a slash. */
  lemma {:induction false} OccurrenceOf(s: string, k: nat) returns (i: nat)
    requires 0 < k < |Split(s)|
    ensures 0 < i <= |s| && s[i - 1] == '/' && Split(s[i..])[0] == Split(s)[k]
  {
    var t := s[1..];
    if s[0] == '/' && k == 1 {
      i := 1;
    } else {
      i := OccurrenceOf(t, if s[0] == '/' then k - 1 else k);
      i := i + 1;
      assert s[i..] == t[i - 1..];
    }
  }

  lemma StartsSomeComponent(s: string, p: string) returns (part: string)
    requires '/' !in p
    requires StartsComponent(s, p)
    ensures part in Split(s) && p <= part
  {
    if p <= s {
      FirstComponent(s, p);
      part := Split(s)[0];
    } else {
      var i :| 0 < i <= |s| && s[i - 1] == '/' && p <= s[i..];
      var k := ComponentAt(s, i);
      FirstComponent(s[i..], p);
      part := Split(s)[k];
    }
  }

  lemma IsSomeComponent(s: string, p: string)
    requires '/' !in p
    requires StartsComponent(s, p + "/")
    ensures p in Split(s)
  {
    if p + "/" <= s {
      FirstComponent(s, p);
      assert Split(s)[0] == p;
    } else {
      var i :| 0 < i <= |s| && s[i - 1] == '/' && p + "/" <= s[i..];
      var k := ComponentAt(s, i);
      FirstComponent(s[i..], p);
      assert Split(s)[k] == p;
    }
  }

  lemma ComponentStarts(s: string, part: string, p: string)
    requires '/' !in p
    requires part in Split(s) && p <= part
    ensures StartsComponent(s, p)
  {
    var k :| 0 <= k < |Split(s)| && Split(s)[k] == part;
    if k == 0 {
      FirstComponent(s, p);
    } else {
      var i := OccurrenceOf(s, k);
      FirstComponent(s[i..], p);
    }
  }

  /** The deny prefixes are ".env" and the exact directory names followed by a slash. */
  lemma PrefixShape(i: nat)
    requires i < |SENSITIVE_PATH_PREFIXES|
    ensures i == 2 ==> ForwardSlashes(SENSITIVE_PATH_PREFIXES[i]) == ".env"
    ensures i != 2 ==>
      var raw := SENSITIVE_PATH_PREFIXES[i];
      && raw != "" && raw[..|raw| - 1] in SENSITIVE_EXACT && '/' !in raw[..|raw| - 1]
      && ForwardSlashes(raw) == raw[..|raw| - 1] + "/"
  {
    var raw := SENSITIVE_PATH_PREFIXES[i];
    var name := raw[..|raw| - 1];
    if i == 0 || i == 1 { assert name == ".git"; }
    else if i == 3 || i == 4 { assert name == ".venv"; }
    else if i == 5 || i == 6 { assert name == "node_modules"; }
    else if i == 7 || i == 8 { assert name == "dist"; }
    else if i == 9 || i == 10 { assert name == "build"; }
    else if i == 11 || i == 12 { assert name == "__pycache__"; }
  }

  /**
   * The textual test (prefixes, substrings, components) means exactly this: some component of the
   * path is on the exact list or begins with ".env".
   */
  lemma SensitiveIffComponent(target: string)
    ensures IsSensitivePath(target) <==>
            exists part | part in Split(ForwardSlashes(target)) :: SensitiveComponent(part)
  {
    var s := ForwardSlashes(target);
    if IsSensitivePath(target) {
      if s in SENSITIVE_EXACT {
        SplitHead(s, "");
        assert SensitiveComponent(s);
      } else if !exists part | part in Split(s) :: part in SENSITIVE_EXACT {
        var i :| 0 <= i < |SENSITIVE_PATH_PREFIXES| &&
                 StartsComponent(s, ForwardSlashes(SENSITIVE_PATH_PREFIXES[i]));
        PrefixShape(i);
        var raw := SENSITIVE_PATH_PREFIXES[i];
        if i == 2 {
          var part := StartsSomeComponent(s, ".env");
          assert SensitiveComponent(part);
        } else {
          IsSomeComponent(s, raw[..|raw| - 1]);
        }
      }
    }
    if part :| part in Split(s) && SensitiveComponent(part) {
      if part !in SENSITIVE_EXACT {
        ComponentStarts(s, part, ".env");
        PrefixShape(2);
      }
    }
  }
}
