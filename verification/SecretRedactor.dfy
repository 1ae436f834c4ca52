/**
 * The secret redactor (secret_redactor.py): pass after pass of substitutions, each reporting the lines of
 * its matches in the text it was given. Patterns are arbitrary scanners.
 */
module SecretRedactor {
  import opened Text

  const REDACTION_MARKER := "[REDACTED-SECRET]"
  const TIER2_MIN_LEN := 16

  /** A stretch of text as one pattern sees it: a gap between matches, or a match with its groups. */
  datatype Piece =
    | Gap(text: string)
    | Pem(begin: string, body: string, end: string)
    | Token(kept: string, secret: string)
    | Assignment(key: string, op: string, open: string, value: string, close: string)

  function Matched(p: Piece): string {
    match p
    case Gap(text) => text
    case Pem(begin, body, end) => begin + body + end
    case Token(kept, secret) => kept + secret
    case Assignment(key, op, open, value, close) => key + op + open + value + close
  }

  function Flatten(pieces: seq<Piece>): string {
    if pieces == [] then "" else Flatten(pieces[..|pieces| - 1]) + Matched(pieces[|pieces| - 1])
  }

  /** What the patterns guarantee of a match: it is not empty, and what is redacted of it spans no line end. */
  predicate PieceOk(p: Piece) {
    match p
    case Gap(_) => true
    case Pem(begin, _, _) => begin != ""
    case Token(_, secret) => secret != "" && '\n' !in secret
    case Assignment(key, _, _, value, _) => key != "" && '\n' !in value
  }

  /** One compiled pattern: finditer over a text, and the pattern_type it reports. */
  datatype Pass = Pass(kind: string, scan: string -> seq<Piece>) {
    ghost predicate Ok() {
      forall s {:trigger scan(s)} :: Flatten(scan(s)) == s && forall p | p in scan(s) :: PieceOk(p)
    }
  }

  datatype Hit = Hit(line: nat, kind: string)

  function Newlines(s: string): (n: nat)
    ensures n == multiset(s)['\n']
  {
    if s == "" then 0
    else
      assert s == [s[0]] + s[1..];
      (if s[0] == '\n' then 1 else 0) + Newlines(s[1..])
  }

  /** The line number of a position, counted from 1. */
  function Line(s: string, at: nat): nat
    requires at <= |s|
  {
    Newlines(s[..at]) + 1
  }

  lemma {:induction false} NewlinesAdd(a: string, b: string)
    ensures Newlines(a + b) == Newlines(a) + Newlines(b)
  {
    if a == "" {
      assert a + b == b;
    } else {
      NewlinesAdd(a[1..], b);
      assert (a + b)[1..] == a[1..] + b;
    }
  }

  lemma {:induction false} NoNewlines(s: string)
    requires '\n' !in s
    ensures Newlines(s) == 0
  {
    if s != "" {
      NoNewlines(s[1..]);
    }
  }

  /** What happens to a stretch of text: it is kept, or it is a secret and the marker takes its place. */
  datatype Chunk = Keep(text: string) | Hide(text: string)

  function Shown(c: Chunk): string {
    if c.Keep? then c.text else REDACTION_MARKER
  }

  function Original(cs: seq<Chunk>): string {
    if cs == [] then "" else cs[0].text + Original(cs[1..])
  }

  function Redacted(cs: seq<Chunk>): string {
    if cs == [] then "" else Shown(cs[0]) + Redacted(cs[1..])
  }

  predicate ChunksOk(cs: seq<Chunk>) {
    forall c | c in cs && c.Hide? :: c.text != "" && '\n' !in c.text
  }

  lemma OriginalCons(c: Chunk, cs: seq<Chunk>)
    ensures Original([c] + cs) == c.text + Original(cs)
    ensures Redacted([c] + cs) == Shown(c) + Redacted(cs)
  {
    hide Shown;
    assert ([c] + cs)[1..] == cs;
  }

  lemma Associates(x: string, y: string, z: string)
    ensures x + (y + z) == (x + y) + z
  {
  }

  lemma {:induction false} ChunksAdd(a: seq<Chunk>, b: seq<Chunk>)
    ensures Original(a + b) == Original(a) + Original(b)
    ensures Redacted(a + b) == Redacted(a) + Redacted(b)
  {
    if a == [] {
      assert a + b == b;
    } else {
      hide Original, Redacted, Shown;
      var c, rest := a[0], a[1..];
      ChunksAdd(rest, b);
      SplitFirst(a, b);
      Associates(c.text, Original(rest), Original(b));
      Associates(Shown(c), Redacted(rest), Redacted(b));
    }
  }

  lemma SplitFirst(a: seq<Chunk>, b: seq<Chunk>)
    requires a != []
    ensures Original(a) == a[0].text + Original(a[1..]) && Original(a + b) == a[0].text + Original(a[1..] + b)
    ensures Redacted(a) == Shown(a[0]) + Redacted(a[1..]) && Redacted(a + b) == Shown(a[0]) + Redacted(a[1..] + b)
  {
    hide Shown;
    OriginalCons(a[0], a[1..] + b);
    assert [a[0]] + (a[1..] + b) == a + b;
  }

  /** Where the characters of one chunk, as shown, come from; a marker comes from where its secret began. */
  function ChunkOrigins(c: Chunk, at: nat): (r: seq<nat>)
    ensures |r| == |Shown(c)|
    ensures forall p | 0 <= p < |r| :: r[p] == if c.Keep? then at + p else at
  {
    if c.Keep? then seq(|c.text|, i requires 0 <= i => at + i) else seq(|REDACTION_MARKER|, _ => at)
  }

  /** For each character of the redacted text the position it comes from. */
  function Origins(cs: seq<Chunk>, at: nat): (r: seq<nat>)
    ensures |r| == |Redacted(cs)|
  {
    if cs == [] then [] else ChunkOrigins(cs[0], at) + Origins(cs[1..], at + |cs[0].text|)
  }

  lemma ChunkInside(cs: seq<Chunk>)
    requires cs != []
    ensures Original(cs) == cs[0].text + Original(cs[1..]) && Redacted(cs) == Shown(cs[0]) + Redacted(cs[1..])
    ensures ChunksOk(cs) ==> ChunksOk(cs[1..]) && ChunksOk([cs[0]])
    ensures |Original(cs)| == |cs[0].text| + |Original(cs[1..])|
  {
    hide Shown;
  }

  lemma OriginsCons(cs: seq<Chunk>, at: nat, p: nat)
    requires cs != [] && p < |Redacted(cs)|
    ensures var n := |Shown(cs[0])|;
      Origins(cs, at)[p] ==
        if p >= n then Origins(cs[1..], at + |cs[0].text|)[p - n] else if cs[0].Keep? then at + p else at
  {
    hide Redacted, Shown, ChunkOrigins;
  }

  /** Every character stays on its line. */
  lemma {:induction false} OriginsKeepLines(cs: seq<Chunk>, at: nat, p: nat)
    requires ChunksOk(cs) && p < |Redacted(cs)|
    ensures at <= Origins(cs, at)[p] < at + |Original(cs)|
    ensures Line(Redacted(cs), p) == Line(Original(cs), Origins(cs, at)[p] - at)
  {
    hide Shown, Origins, Original, Redacted, Line;
    EmptyShows();
    var c, rest, n := cs[0], cs[1..], |Shown(cs[0])|;
    ChunkInside(cs);
    OriginsCons(cs, at, p);
    if p < n {
      InsideChunk(c, Redacted(rest), Original(rest), p);
    } else {
      OriginsKeepLines(rest, at + |c.text|, p - n);
      BehindChunk(c, Redacted(rest), Original(rest), p - n, Origins(rest, at + |c.text|)[p - n] - at - |c.text|);
    }
  }

  lemma EmptyShows()
    ensures Original([]) == "" && Redacted([]) == ""
  {
  }

  lemma InsideChunk(c: Chunk, after: string, before: string, p: nat)
    requires ChunksOk([c]) && p < |Shown(c)|
    ensures c.Keep? ==> p < |c.text| && Line(Shown(c) + after, p) == Line(c.text + before, p)
    ensures c.Hide? ==> c.text != "" && Line(Shown(c) + after, p) == Line(c.text + before, 0)
  {
    assert c in [c];
    assert (Shown(c) + after)[..p] == Shown(c)[..p];
    if c.Keep? {
      assert (c.text + before)[..p] == c.text[..p];
    } else {
      NoNewlines(REDACTION_MARKER[..p]);
    }
  }

  lemma BehindChunk(c: Chunk, after: string, before: string, p: nat, q: nat)
    requires ChunksOk([c]) && p <= |after| && q <= |before| && Line(after, p) == Line(before, q)
    ensures Line(Shown(c) + after, |Shown(c)| + p) == Line(c.text + before, |c.text| + q)
  {
    hide Shown;
    assert (Shown(c) + after)[..|Shown(c)| + p] == Shown(c) + after[..p];
    assert (c.text + before)[..|c.text| + q] == c.text + before[..q];
    NewlinesAdd(Shown(c), after[..p]);
    NewlinesAdd(c.text, before[..q]);
    ShownNewlines(c);
  }

  lemma ShownNewlines(c: Chunk)
    requires ChunksOk([c])
    ensures Newlines(Shown(c)) == Newlines(c.text)
  {
    assert c in [c];
    if c.Hide? {
      NoNewlines(c.text);
      NoNewlines(REDACTION_MARKER);
    }
  }

  lemma {:induction false} RedactionKeepsNewlines(cs: seq<Chunk>)
    requires ChunksOk(cs)
    ensures Newlines(Redacted(cs)) == Newlines(Original(cs))
  {
    if cs != [] {
      RedactionKeepsNewlines(cs[1..]);
      ShownNewlines(cs[0]);
      NewlinesAdd(Shown(cs[0]), Redacted(cs[1..]));
      NewlinesAdd(cs[0].text, Original(cs[1..]));
    }
  }

  /** The content of one line of a key body: replaced unless blank. */
  function LineChunk(line: string): Chunk {
    if Strip(line) == "" then Keep(line) else Hide(line)
  }

  function FirstNewline(s: string): (i: nat)
    ensures i <= |s| && '\n' !in s[..i] && (i < |s| ==> s[i] == '\n')
  {
    if s == "" || s[0] == '\n' then 0
    else
      var i := FirstNewline(s[1..]);
      assert s[..i + 1] == [s[0]] + s[1..][..i];
      i + 1
  }

  /** The body of a key, line by line with its line ends. */
  function BodyChunks(body: string): seq<Chunk> {
    var i := FirstNewline(body);
    if i == |body| then [LineChunk(body)]
    else [LineChunk(body[..i]), Keep("\n")] + BodyChunks(body[i + 1..])
  }

  lemma LineChunkOk(line: string)
    requires '\n' !in line
    ensures ChunksOk([LineChunk(line)]) && LineChunk(line).text == line && Original([LineChunk(line)]) == line
  {
    assert Strip("") == "";
  }

  lemma {:induction false} BodyChunksOk(body: string)
    ensures Original(BodyChunks(body)) == body && ChunksOk(BodyChunks(body))
  {
    hide LineChunk, Original, ChunksOk, Redacted;
    var i := FirstNewline(body);
    LineChunkOk(body[..i]);
    if i == |body| {
      assert body[..i] == body;
    } else {
      var tail := BodyChunks(body[i + 1..]);
      BodyChunksOk(body[i + 1..]);
      LineAndRest(LineChunk(body[..i]), tail);
      LineAndRestOk(LineChunk(body[..i]), tail);
      assert body == body[..i] + ("\n" + body[i + 1..]);
    }
  }

  lemma LineAndRestOk(line: Chunk, tail: seq<Chunk>)
    requires ChunksOk([line]) && ChunksOk(tail)
    ensures ChunksOk([line, Keep("\n")] + tail)
  {
    assert line in [line];
  }

  lemma LineAndRest(line: Chunk, tail: seq<Chunk>)
    ensures Original([line, Keep("\n")] + tail) == line.text + ("\n" + Original(tail))
    ensures Redacted([line, Keep("\n")] + tail) == Shown(line) + ("\n" + Redacted(tail))
  {
    hide Original, Redacted;
    OriginalCons(Keep("\n"), tail);
    OriginalCons(line, [Keep("\n")] + tail);
    assert [line, Keep("\n")] + tail == [line] + ([Keep("\n")] + tail);
  }

  /** Which matches are redacted, and which of their groups. */
  predicate LeftAlone(placeholder: string -> bool, p: Piece) {
    p.Gap? || (p.Assignment? && (|p.value| < TIER2_MIN_LEN || IsPlaceholder(placeholder, p.value)))
  }

  /** Blank, one repeated character, or a known placeholder text. */
  predicate IsPlaceholder(placeholder: string -> bool, value: string) {
    var v := Strip(value);
    v == "" || (forall c | c in v :: c == v[0]) || placeholder(v)
  }

  function Chunks(placeholder: string -> bool, p: Piece): (cs: seq<Chunk>)
    requires PieceOk(p)
    ensures Original(cs) == Matched(p) && ChunksOk(cs)
  {
    if LeftAlone(placeholder, p) then
      assert Original([Keep(Matched(p))]) == Matched(p);
      [Keep(Matched(p))]
    else match p
      case Pem(begin, body, end) =>
        BodyChunksOk(body);
        ChunksAdd([Keep(begin)], BodyChunks(body));
        ChunksAdd([Keep(begin)] + BodyChunks(body), [Keep(end)]);
        [Keep(begin)] + BodyChunks(body) + [Keep(end)]
      case Token(kept, secret) =>
        ChunksAdd([Keep(kept)], [Hide(secret)]);
        [Keep(kept)] + [Hide(secret)]
      case Assignment(key, op, open, value, close) =>
        ChunksAdd([Keep(key + op + open)], [Hide(value)]);
        ChunksAdd([Keep(key + op + open)] + [Hide(value)], [Keep(close)]);
        [Keep(key + op + open)] + [Hide(value)] + [Keep(close)]
  }

  function AllChunks(placeholder: string -> bool, pieces: seq<Piece>): (cs: seq<Chunk>)
    requires forall p | p in pieces :: PieceOk(p)
    ensures Original(cs) == Flatten(pieces) && ChunksOk(cs)
  {
    if pieces == [] then []
    else
      var n := |pieces| - 1;
      ChunksAdd(AllChunks(placeholder, pieces[..n]), Chunks(placeholder, pieces[n]));
      AllChunks(placeholder, pieces[..n]) + Chunks(placeholder, pieces[n])
  }

  function KindOf(kind: string, p: Piece): string {
    if p.Assignment? then "assignment:" + Lower(p.key) else kind
  }

  /** What one pass reports: the line of every redacted match, in the text the pass was given. */
  function HitsOf(kind: string, placeholder: string -> bool, pieces: seq<Piece>): seq<Hit> {
    if pieces == [] then []
    else
      var n := |pieces| - 1;
      HitsOf(kind, placeholder, pieces[..n])
      + if LeftAlone(placeholder, pieces[n]) then []
        else [Hit(Newlines(Flatten(pieces[..n])) + 1, KindOf(kind, pieces[n]))]
  }

  /** The rebuilt body of a key: the marker for every line that is not blank, every line end kept. */
  method RebuildBody(body: string) returns (rebuilt: string)
    ensures rebuilt == Redacted(BodyChunks(body))
  {
    rebuilt := "";
    var rest := body;
    while FirstNewline(rest) < |rest|
      invariant rebuilt + Redacted(BodyChunks(rest)) == Redacted(BodyChunks(body))
      decreases |rest|
    {
      var i := FirstNewline(rest);
      var seg := rest[..i];
      LineAndRest(LineChunk(seg), BodyChunks(rest[i + 1..]));
      Associates(rebuilt, Shown(LineChunk(seg)), "\n" + Redacted(BodyChunks(rest[i + 1..])));
      Associates(rebuilt + Shown(LineChunk(seg)), "\n", Redacted(BodyChunks(rest[i + 1..])));
      rebuilt := rebuilt + (if Strip(seg) != "" then REDACTION_MARKER else seg) + "\n";
      rest := rest[i + 1..];
    }
    OriginalCons(LineChunk(rest), []);
    assert [LineChunk(rest)] + [] == [LineChunk(rest)];
    rebuilt := rebuilt + (if Strip(rest) != "" then REDACTION_MARKER else rest);
  }

  /** What takes the place of a redacted match. */
  method Replacement(placeholder: string -> bool, piece: Piece) returns (replaced: string)
    requires PieceOk(piece) && !LeftAlone(placeholder, piece)
    ensures replaced == Redacted(Chunks(placeholder, piece))
  {
    match piece {
      case Pem(begin, body, end) =>
        var rebuilt := RebuildBody(body);
        replaced := begin + rebuilt + end;
        ChunksAdd([Keep(begin)], BodyChunks(body));
        ChunksAdd([Keep(begin)] + BodyChunks(body), [Keep(end)]);
      case Token(kept, secret) =>
        replaced := kept + REDACTION_MARKER;
        ChunksAdd([Keep(kept)], [Hide(secret)]);
      case Assignment(key, op, open, value, close) =>
        replaced := key + op + open + REDACTION_MARKER + close;
        ChunksAdd([Keep(key + op + open)], [Hide(value)]);
        ChunksAdd([Keep(key + op + open)] + [Hide(value)], [Keep(close)]);
    }
  }

  lemma NextPiece(kind: string, placeholder: string -> bool, pieces: seq<Piece>, i: nat)
    requires i < |pieces| && forall p | p in pieces :: PieceOk(p)
    ensures Flatten(pieces[..i + 1]) == Flatten(pieces[..i]) + Matched(pieces[i])
    ensures Redacted(AllChunks(placeholder, pieces[..i + 1]))
            == Redacted(AllChunks(placeholder, pieces[..i])) + Redacted(Chunks(placeholder, pieces[i]))
    ensures HitsOf(kind, placeholder, pieces[..i + 1]) == HitsOf(kind, placeholder, pieces[..i])
            + if LeftAlone(placeholder, pieces[i]) then []
              else [Hit(Newlines(Flatten(pieces[..i])) + 1, KindOf(kind, pieces[i]))]
  {
    hide Chunks, Matched, LeftAlone, Redacted, Original, PieceOk;
    assert pieces[..i + 1][..i] == pieces[..i];
    ChunksAdd(AllChunks(placeholder, pieces[..i]), Chunks(placeholder, pieces[i]));
  }

  lemma {:induction false} FlattenPrefix(pieces: seq<Piece>, i: nat)
    requires i <= |pieces|
    ensures Flatten(pieces[..i]) <= Flatten(pieces)
  {
    hide Matched;
    var n := |pieces| - 1;
    if i == |pieces| {
      assert pieces[..i] == pieces;
    } else {
      FlattenPrefix(pieces[..n], i);
      assert pieces[..n][..i] == pieces[..i];
    }
  }

  lemma LeftAloneStays(placeholder: string -> bool, piece: Piece)
    requires PieceOk(piece) && LeftAlone(placeholder, piece)
    ensures Redacted(Chunks(placeholder, piece)) == Matched(piece)
  {
    OriginalCons(Keep(Matched(piece)), []);
  }

  lemma NoPieces(kind: string, placeholder: string -> bool)
    ensures Flatten([]) == "" && Redacted(AllChunks(placeholder, [])) == "" && HitsOf(kind, placeholder, []) == []
  {
  }

  /** Parts with a separator between them, or with none. */
  function Lines(parts: seq<string>): string
    requires parts != []
  {
    if |parts| == 1 then parts[0] else parts[0] + ("\n" + Lines(parts[1..]))
  }

  function Concat<T>(parts: seq<seq<T>>): seq<T> {
    if parts == [] then [] else Concat(parts[..|parts| - 1]) + parts[|parts| - 1]
  }

  /** What becomes of a key body: line for line the marker, but where a line is blank. */
  ghost predicate BodyBecomes(body: string, lines: seq<string>, shown: seq<string>, out: string) {
    && |lines| == |shown| > 0 && body == Lines(lines) && out == Lines(shown)
    && (forall i | 0 <= i < |lines| :: '\n' !in lines[i])
    && forall i | 0 <= i < |lines| :: shown[i] == if IsBlank(lines[i]) then lines[i] else "[REDACTED-SECRET]"
  }

  /** A value worth redacting: sixteen characters or more that are no placeholder. */
  ghost predicate SecretValue(placeholder: string -> bool, value: string) {
    && |value| >= 16
    && exists v :: Stripped(value, v) && v != "" && (exists i | 0 <= i < |v| :: v[i] != v[0]) && !placeholder(v)
  }

  ghost predicate Replaced(placeholder: string -> bool, p: Piece) {
    p.Pem? || p.Token? || (p.Assignment? && SecretValue(placeholder, p.value))
  }

  /** What each stretch of text becomes. */
  ghost predicate Becomes(placeholder: string -> bool, p: Piece, out: string) {
    match p
    case Gap(text) => out == text
    case Token(kept, secret) => out == kept + "[REDACTED-SECRET]"
    case Assignment(key, op, open, value, close) =>
      out == key + op + open + (if SecretValue(placeholder, value) then "[REDACTED-SECRET]" else value) + close
    case Pem(begin, body, end) =>
      exists lines, shown, rebuilt :: BodyBecomes(body, lines, shown, rebuilt) && out == begin + rebuilt + end
  }

  /** A text is rewritten stretch by stretch. */
  ghost predicate Rewritten(placeholder: string -> bool, pieces: seq<Piece>, out: string) {
    exists outs: seq<string> :: |outs| == |pieces| && out == Concat(outs)
      && forall i | 0 <= i < |pieces| :: Becomes(placeholder, pieces[i], outs[i])
  }

  /** A hit names the line a match starts on and its kind. */
  predicate HitAt(kind: string, pieces: seq<Piece>, i: nat, hit: Hit) {
    && i < |pieces|
    && hit.line == multiset(Flatten(pieces[..i]))['\n'] + 1
    && hit.kind == if pieces[i].Assignment? then "assignment:" + Lower(pieces[i].key) else kind
  }

  /** The hits are those of the replaced matches, in order. */
  ghost predicate Reported(kind: string, placeholder: string -> bool, pieces: seq<Piece>, at: seq<nat>,
                           hits: seq<Hit>)
  {
    && |at| == |hits|
    && (forall j, k | 0 <= j < k < |at| :: at[j] < at[k])
    && (forall i | 0 <= i < |pieces| && Replaced(placeholder, pieces[i]) :: i in at)
    && forall k | 0 <= k < |at| ::
         at[k] < |pieces| && Replaced(placeholder, pieces[at[k]]) && HitAt(kind, pieces, at[k], hits[k])
  }

  lemma BlankStrips(s: string)
    ensures Strip(s) == "" <==> IsBlank(s)
  {
    var a, b := StripParts(s);
    if Strip(s) == "" {
      assert s == a + b;
    } else {
      assert s[|a|] == Strip(s)[0];
    }
  }

  lemma LineBecomes(line: string, rest: string, lines: seq<string>, shown: seq<string>, out: string)
    requires BodyBecomes(rest, lines, shown, out) && '\n' !in line
    ensures BodyBecomes(line + ("\n" + rest), [line] + lines, [Shown(LineChunk(line))] + shown,
                        Shown(LineChunk(line)) + ("\n" + out))
  {
    OneLineBecomes(line);
    hide IsBlank, Strip, LineChunk, Shown;
    assert ([line] + lines)[1..] == lines && ([Shown(LineChunk(line))] + shown)[1..] == shown;
  }

  lemma OneLineBecomes(line: string)
    requires '\n' !in line
    ensures Shown(LineChunk(line)) == if IsBlank(line) then line else "[REDACTED-SECRET]"
    ensures BodyBecomes(line, [line], [Shown(LineChunk(line))], Shown(LineChunk(line)))
  {
    hide Strip, IsBlank;
    BlankStrips(line);
  }

  lemma BodyUnfolds(body: string)
    ensures var i := FirstNewline(body);
      BodyChunks(body) ==
        if i == |body| then [LineChunk(body)]
        else [LineChunk(body[..i]), Keep("\n")] + BodyChunks(body[i + 1..])
  {
    hide LineChunk, FirstNewline;
  }

  lemma {:induction false} BodyMeets(body: string) returns (lines: seq<string>, shown: seq<string>)
    ensures BodyBecomes(body, lines, shown, Redacted(BodyChunks(body)))
  {
    hide *;
    var i := FirstNewline(body);
    BodyUnfolds(body);
    var line := body[..i];
    var put := Shown(LineChunk(line));
    if i == |body| {
      assert line == body;
      OneChunk(LineChunk(body));
      OneLineBecomes(line);
      lines, shown := [line], [put];
    } else {
      var l, n := BodyMeets(body[i + 1..]);
      LineAndRest(LineChunk(line), BodyChunks(body[i + 1..]));
      LineBecomes(line, body[i + 1..], l, n, Redacted(BodyChunks(body[i + 1..])));
      lines, shown := [line] + l, [put] + n;
      assert body == line + ("\n" + body[i + 1..]);
    }
  }

  lemma OneChunk(c: Chunk)
    ensures Redacted([c]) == Shown(c) && Original([c]) == c.text
  {
    hide Shown;
    assert Redacted([]) == "" && Original([]) == "";
  }

  lemma Varied(v: string)
    requires v != ""
    ensures (exists i | 0 <= i < |v| :: v[i] != v[0]) <==> !(forall c | c in v :: c == v[0])
  {
    if c :| c in v && c != v[0] {
      var i :| 0 <= i < |v| && v[i] == c;
      assert v[i] != v[0];
    }
    if i :| 0 <= i < |v| && v[i] != v[0] {
      assert v[i] in v;
    }
  }

  lemma SecretExactly(placeholder: string -> bool, value: string)
    ensures SecretValue(placeholder, value) <==> |value| >= TIER2_MIN_LEN && !IsPlaceholder(placeholder, value)
  {
    hide Stripped, Strip;
    StripExactly(value);
    if Strip(value) != "" {
      Varied(Strip(value));
    }
  }

  lemma ReplacedExactly(placeholder: string -> bool, p: Piece)
    ensures Replaced(placeholder, p) <==> !LeftAlone(placeholder, p)
  {
    hide SecretValue, IsPlaceholder;
    if p.Assignment? {
      SecretExactly(placeholder, p.value);
    }
  }

  lemma PieceBecomes(placeholder: string -> bool, p: Piece)
    requires PieceOk(p)
    ensures Becomes(placeholder, p, Redacted(Chunks(placeholder, p)))
  {
    hide SecretValue, IsPlaceholder, Redacted, Original, BodyBecomes;
    ReplacedExactly(placeholder, p);
    if LeftAlone(placeholder, p) {
      OneChunk(Keep(Matched(p)));
    } else {
      match p {
        case Pem(begin, body, end) =>
          var lines, shown := BodyMeets(body);
          ChunksAdd([Keep(begin)], BodyChunks(body));
          ChunksAdd([Keep(begin)] + BodyChunks(body), [Keep(end)]);
          OneChunk(Keep(begin));
          OneChunk(Keep(end));
        case Token(kept, secret) =>
          ChunksAdd([Keep(kept)], [Hide(secret)]);
          OneChunk(Keep(kept));
          OneChunk(Hide(secret));
        case Assignment(key, op, open, value, close) =>
          ChunksAdd([Keep(key + op + open)], [Hide(value)]);
          ChunksAdd([Keep(key + op + open)] + [Hide(value)], [Keep(close)]);
          OneChunk(Keep(key + op + open));
          OneChunk(Hide(value));
          OneChunk(Keep(close));
      }
    }
  }

  lemma {:induction false} TextIsRewritten(placeholder: string -> bool, pieces: seq<Piece>) returns (outs: seq<string>)
    requires forall p | p in pieces :: PieceOk(p)
    ensures |outs| == |pieces| && Redacted(AllChunks(placeholder, pieces)) == Concat(outs)
    ensures forall i | 0 <= i < |pieces| :: Becomes(placeholder, pieces[i], outs[i])
  {
    hide PieceOk, Becomes, Chunks, Redacted, Original, Flatten;
    outs := [];
    if pieces == [] {
      NoPieces("", placeholder);
    } else {
      var n := |pieces| - 1;
      var before := TextIsRewritten(placeholder, pieces[..n]);
      PieceBecomes(placeholder, pieces[n]);
      ChunksAdd(AllChunks(placeholder, pieces[..n]), Chunks(placeholder, pieces[n]));
      outs := before + [Redacted(Chunks(placeholder, pieces[n]))];
      assert outs[..n] == before;
    }
  }

  lemma IsRewritten(placeholder: string -> bool, pieces: seq<Piece>)
    requires forall p | p in pieces :: PieceOk(p)
    ensures Rewritten(placeholder, pieces, Redacted(AllChunks(placeholder, pieces)))
  {
    hide Becomes, PieceOk, Redacted, AllChunks;
    var outs := TextIsRewritten(placeholder, pieces);
  }

  lemma HitStays(kind: string, pieces: seq<Piece>, n: nat, i: nat, hit: Hit)
    requires n <= |pieces| && HitAt(kind, pieces[..n], i, hit)
    ensures HitAt(kind, pieces, i, hit)
  {
    hide Flatten;
    assert pieces[..n][..i] == pieces[..i];
  }

  lemma {:induction false} HitsAreReported(kind: string, placeholder: string -> bool, pieces: seq<Piece>)
    returns (at: seq<nat>)
    ensures Reported(kind, placeholder, pieces, at, HitsOf(kind, placeholder, pieces))
  {
    hide Replaced, LeftAlone, HitAt, Flatten;
    at := [];
    if pieces != [] {
      var m := |pieces| - 1;
      var before := HitsAreReported(kind, placeholder, pieces[..m]);
      var hits := HitsOf(kind, placeholder, pieces[..m]);
      forall k | 0 <= k < |before|
        ensures HitAt(kind, pieces, before[k], hits[k])
      {
        HitStays(kind, pieces, m, before[k], hits[k]);
      }
      ReplacedExactly(placeholder, pieces[m]);
      at := before;
      if Replaced(placeholder, pieces[m]) {
        at := before + [m];
        LastHit(kind, pieces);
      }
    }
  }

  lemma LastHit(kind: string, pieces: seq<Piece>)
    requires pieces != []
    ensures var m := |pieces| - 1;
      HitAt(kind, pieces, m, Hit(Newlines(Flatten(pieces[..m])) + 1, KindOf(kind, pieces[m])))
  {
    hide Flatten, Newlines;
  }

  ghost predicate PassesOk(passes: seq<Pass>) {
    forall i | 0 <= i < |passes| :: passes[i].Ok()
  }

  /** The matches and gaps a pass finds in a text. */
  function Seen(pass: Pass, text: string): (pieces: seq<Piece>)
    requires pass.Ok()
    ensures Flatten(pieces) == text && forall p | p in pieces :: PieceOk(p)
  {
    pass.scan(text)
  }

  /** What a pass does to a text. */
  function PassChunks(pass: Pass, placeholder: string -> bool, text: string): (cs: seq<Chunk>)
    requires pass.Ok()
    ensures Original(cs) == text && ChunksOk(cs)
  {
    AllChunks(placeholder, Seen(pass, text))
  }

  /** One pass from text to text, with what it reports. */
  ghost predicate PassDone(pass: Pass, placeholder: string -> bool, text: string, out: string, hits: seq<Hit>)
    requires pass.Ok()
  {
    && Rewritten(placeholder, Seen(pass, text), out)
    && exists at :: Reported(pass.kind, placeholder, Seen(pass, text), at, hits)
  }

  /** One substitution: every match is replaced, and reported where it starts. */
  method Substitute(pass: Pass, placeholder: string -> bool, text: string) returns (out: string, hits: seq<Hit>)
    requires pass.Ok()
    ensures out == Redacted(PassChunks(pass, placeholder, text))
    ensures hits == HitsOf(pass.kind, placeholder, Seen(pass, text))
    ensures PassDone(pass, placeholder, text, out, hits)
  {
    hide Becomes, Reported, Rewritten, Chunks, Redacted, Original, Flatten, HitsOf, LeftAlone, AllChunks, Matched;
    var pieces := Seen(pass, text);
    out, hits := "", [];
    var start := 0;
    NoPieces(pass.kind, placeholder);
    assert pieces[..0] == [];
    for i := 0 to |pieces|
      invariant start == |Flatten(pieces[..i])|
      invariant out == Redacted(AllChunks(placeholder, pieces[..i]))
      invariant hits == HitsOf(pass.kind, placeholder, pieces[..i])
    {
      var piece := pieces[i];
      FlattenPrefix(pieces, i);
      NextPiece(pass.kind, placeholder, pieces, i);
      var line := Newlines(text[..start]) + 1;
      assert text[..start] == Flatten(pieces[..i]);
      var replaced := Matched(piece);
      if LeftAlone(placeholder, piece) {
        LeftAloneStays(placeholder, piece);
      } else {
        replaced := Replacement(placeholder, piece);
        hits := hits + [Hit(line, KindOf(pass.kind, piece))];
      }
      out := out + replaced;
      start := start + |Matched(piece)|;
    }
    assert pieces[..|pieces|] == pieces;
    IsRewritten(placeholder, pieces);
    ghost var at := HitsAreReported(pass.kind, placeholder, pieces);
  }

  /** The text after the first j passes. */
  ghost function TextAfter(content: string, passes: seq<Pass>, placeholder: string -> bool, j: nat): string
    requires PassesOk(passes) && j <= |passes|
  {
    if j == 0 then content
    else Redacted(PassChunks(passes[j - 1], placeholder, TextAfter(content, passes, placeholder, j - 1)))
  }

  /** Where in the original content each character of that text comes from. */
  ghost function OriginAfter(content: string, passes: seq<Pass>, placeholder: string -> bool, j: nat): (r: seq<nat>)
    requires PassesOk(passes) && j <= |passes|
    ensures Traced(content, TextAfter(content, passes, placeholder, j), r)
  {
    if j == 0 then
      var r: seq<nat> := seq(|content|, i requires 0 <= i => i);
      r
    else
      var cs := PassChunks(passes[j - 1], placeholder, TextAfter(content, passes, placeholder, j - 1));
      var before := OriginAfter(content, passes, placeholder, j - 1);
      TraceStep(content, before, cs);
      Compose(before, Origins(cs, 0))
  }

  /** Characters never leave their line. */
  ghost predicate Traced(content: string, text: string, origin: seq<nat>) {
    && |origin| == |text|
    && forall p | 0 <= p < |text| :: origin[p] < |content| && Line(text, p) == Line(content, origin[p])
  }

  function Compose(first: seq<nat>, second: seq<nat>): (r: seq<nat>)
    ensures |r| == |second|
    ensures forall p | 0 <= p < |r| :: r[p] == if second[p] < |first| then first[second[p]] else 0
  {
    seq(|second|, p requires 0 <= p < |second| => if second[p] < |first| then first[second[p]] else 0)
  }

  lemma TraceStep(content: string, before: seq<nat>, cs: seq<Chunk>)
    requires ChunksOk(cs) && Traced(content, Original(cs), before)
    ensures Traced(content, Redacted(cs), Compose(before, Origins(cs, 0)))
  {
    hide Line, Original, Redacted, Origins, ChunksOk;
    forall p: nat | p < |Redacted(cs)|
      ensures Compose(before, Origins(cs, 0))[p] < |content|
      ensures Line(Redacted(cs), p) == Line(content, Compose(before, Origins(cs, 0))[p])
    {
      OriginsKeepLines(cs, 0, p);
    }
  }

  /** The same report with every match located in the original content instead of the current text. */
  ghost function HitsInOriginal(kind: string, placeholder: string -> bool, pieces: seq<Piece>,
                               content: string, origin: seq<nat>): seq<Hit>
    requires Traced(content, Flatten(pieces), origin) && forall p | p in pieces :: PieceOk(p)
  {
    HitsLocated(kind, placeholder, pieces, |pieces|, content, origin)
  }

  ghost function HitsLocated(kind: string, placeholder: string -> bool, pieces: seq<Piece>, n: nat,
                             content: string, origin: seq<nat>): seq<Hit>
    requires n <= |pieces| && Traced(content, Flatten(pieces), origin) && forall p | p in pieces :: PieceOk(p)
  {
    if n == 0 then []
    else
      var start := |Flatten(pieces[..n - 1])|;
      HitsLocated(kind, placeholder, pieces, n - 1, content, origin)
      + if LeftAlone(placeholder, pieces[n - 1]) then []
        else
          MatchStarts(placeholder, pieces, n - 1);
          [Hit(Line(content, origin[start]), KindOf(kind, pieces[n - 1]))]
  }

  lemma MatchStarts(placeholder: string -> bool, pieces: seq<Piece>, i: nat)
    requires i < |pieces| && PieceOk(pieces[i]) && !LeftAlone(placeholder, pieces[i])
    ensures |Flatten(pieces[..i])| < |Flatten(pieces)|
    ensures Newlines(Flatten(pieces[..i])) + 1 == Line(Flatten(pieces), |Flatten(pieces[..i])|)
  {
    hide Newlines, LeftAlone, Flatten, Matched, PieceOk;
    FlattenPrefix(pieces, i);
    FlattenPrefix(pieces, i + 1);
    FlattenStep(pieces, i);
    assert Flatten(pieces)[..|Flatten(pieces[..i])|] == Flatten(pieces[..i]);
    MatchNotEmpty(placeholder, pieces[i]);
  }

  lemma FlattenStep(pieces: seq<Piece>, i: nat)
    requires i < |pieces|
    ensures Flatten(pieces[..i + 1]) == Flatten(pieces[..i]) + Matched(pieces[i])
  {
    hide Matched;
    assert pieces[..i + 1][..i] == pieces[..i];
  }

  lemma MatchNotEmpty(placeholder: string -> bool, p: Piece)
    requires PieceOk(p) && !LeftAlone(placeholder, p)
    ensures Matched(p) != ""
  {
  }

  lemma {:induction false} LinesAreOriginal(kind: string, placeholder: string -> bool, pieces: seq<Piece>, n: nat,
                                            content: string, origin: seq<nat>)
    requires n <= |pieces| && Traced(content, Flatten(pieces), origin) && forall p | p in pieces :: PieceOk(p)
    ensures HitsOf(kind, placeholder, pieces[..n]) == HitsLocated(kind, placeholder, pieces, n, content, origin)
  {
    hide LeftAlone, PieceOk, Flatten, Matched, Line, KindOf, Newlines;
    if n > 0 {
      LinesAreOriginal(kind, placeholder, pieces, n - 1, content, origin);
      assert pieces[..n][..n - 1] == pieces[..n - 1];
      if !LeftAlone(placeholder, pieces[n - 1]) {
        MatchStarts(placeholder, pieces, n - 1);
      }
    }
  }

  /** The reports of the first j passes, each located in the original content. */
  ghost function Report(content: string, passes: seq<Pass>, placeholder: string -> bool, j: nat): seq<Hit>
    requires PassesOk(passes) && j <= |passes|
  {
    if j == 0 then []
    else
      Report(content, passes, placeholder, j - 1)
      + HitsInOriginal(passes[j - 1].kind, placeholder,
                       Seen(passes[j - 1], TextAfter(content, passes, placeholder, j - 1)),
                       content, OriginAfter(content, passes, placeholder, j - 1))
  }

  /**
   * Redaction changes neither the number of lines nor, after any number of passes, any line boundary before a
   * character.
   */
  lemma {:induction false} RedactionPreservesLines(content: string, passes: seq<Pass>, placeholder: string -> bool,
                                                   j: nat)
    requires PassesOk(passes) && j <= |passes|
    ensures Newlines(TextAfter(content, passes, placeholder, j)) == Newlines(content)
  {
    hide Newlines, AllChunks, Original, Redacted;
    if j > 0 {
      RedactionPreservesLines(content, passes, placeholder, j - 1);
      RedactionKeepsNewlines(PassChunks(passes[j - 1], placeholder, TextAfter(content, passes, placeholder, j - 1)));
    }
  }

  lemma TextStep(content: string, passes: seq<Pass>, placeholder: string -> bool, j: nat)
    requires PassesOk(passes) && j < |passes|
    ensures TextAfter(content, passes, placeholder, 0) == content && Report(content, passes, placeholder, 0) == []
    ensures TextAfter(content, passes, placeholder, j + 1)
            == Redacted(PassChunks(passes[j], placeholder, TextAfter(content, passes, placeholder, j)))
  {
    hide PassChunks, Redacted, OriginAfter, HitsInOriginal;
  }

  lemma PassReports(content: string, passes: seq<Pass>, placeholder: string -> bool, j: nat)
    requires PassesOk(passes) && j < |passes|
    ensures Report(content, passes, placeholder, j + 1) == Report(content, passes, placeholder, j)
            + HitsOf(passes[j].kind, placeholder, Seen(passes[j], TextAfter(content, passes, placeholder, j)))
    ensures TextAfter(content, passes, placeholder, j + 1)
            == Redacted(PassChunks(passes[j], placeholder, TextAfter(content, passes, placeholder, j)))
  {
    TextStep(content, passes, placeholder, j);
    hide LeftAlone, PieceOk, Flatten, Matched, Line, KindOf, Newlines, HitsOf, HitsLocated, TextAfter, OriginAfter;
    var pieces := Seen(passes[j], TextAfter(content, passes, placeholder, j));
    LinesAreOriginal(passes[j].kind, placeholder, pieces, |pieces|, content,
                     OriginAfter(content, passes, placeholder, j));
    assert pieces[..|pieces|] == pieces;
  }

  /** The passes run one after the other, each on the text the one before it left, and their reports are joined. */
  ghost predicate AllDone(passes: seq<Pass>, placeholder: string -> bool, texts: seq<string>, reports: seq<seq<Hit>>)
    requires PassesOk(passes)
  {
    && |texts| == |passes| + 1 && |reports| == |passes|
    && forall j | 0 <= j < |passes| :: PassDone(passes[j], placeholder, texts[j], texts[j + 1], reports[j])
  }

  /** A text redacted by these passes, with the joined report. */
  ghost predicate Redaction(passes: seq<Pass>, placeholder: string -> bool, content: string, out: string,
                            hits: seq<Hit>)
    requires PassesOk(passes)
  {
    exists texts, reports :: AllDone(passes, placeholder, texts, reports)
      && texts[0] == content && out == texts[|passes|] && hits == Concat(reports)
  }

  lemma PassIsDone(pass: Pass, placeholder: string -> bool, text: string)
    requires pass.Ok()
    ensures PassDone(pass, placeholder, text, Redacted(PassChunks(pass, placeholder, text)),
                     HitsOf(pass.kind, placeholder, Seen(pass, text)))
  {
    hide Rewritten, Reported, Seen, Redacted, AllChunks, HitsOf;
    IsRewritten(placeholder, Seen(pass, text));
    var at := HitsAreReported(pass.kind, placeholder, Seen(pass, text));
  }

  lemma {:induction false} PassesAreDone(content: string, passes: seq<Pass>, placeholder: string -> bool, j: nat)
    returns (texts: seq<string>, reports: seq<seq<Hit>>)
    requires PassesOk(passes) && j <= |passes|
    ensures PassesOk(passes[..j]) && AllDone(passes[..j], placeholder, texts, reports)
    ensures texts[0] == content && texts[j] == TextAfter(content, passes, placeholder, j)
    ensures Concat(reports) == Report(content, passes, placeholder, j)
  {
    hide PassDone, TextAfter, Report, Redacted, PassChunks, Seen, HitsOf;
    if j == 0 {
      texts, reports := [content], [];
      NothingDone(content, passes, placeholder);
    } else {
      var before, earlier := PassesAreDone(content, passes, placeholder, j - 1);
      PassReports(content, passes, placeholder, j - 1);
      PassIsDone(passes[j - 1], placeholder, before[j - 1]);
      var more := HitsOf(passes[j - 1].kind, placeholder, Seen(passes[j - 1], before[j - 1]));
      texts, reports := before + [TextAfter(content, passes, placeholder, j)], earlier + [more];
      assert reports[..j - 1] == earlier;
    }
  }

  lemma NothingDone(content: string, passes: seq<Pass>, placeholder: string -> bool)
    requires PassesOk(passes)
    ensures TextAfter(content, passes, placeholder, 0) == content && Report(content, passes, placeholder, 0) == []
  {
  }

  lemma RedactionDone(content: string, passes: seq<Pass>, placeholder: string -> bool)
    requires PassesOk(passes)
    ensures Redaction(passes, placeholder, content, TextAfter(content, passes, placeholder, |passes|),
                      Report(content, passes, placeholder, |passes|))
  {
    hide AllDone, TextAfter, Report;
    var texts, reports := PassesAreDone(content, passes, placeholder, |passes|);
    assert passes[..|passes|] == passes;
  }

  /** PEM blocks, then the tier-1 tokens one pattern at a time, then the tier-2 assignments. */
  method RedactSecrets(content: string, pem: Pass, tier1: seq<Pass>, tier2: Pass, placeholder: string -> bool)
    returns (redacted: string, hits: seq<Hit>)
    requires PassesOk([pem] + tier1 + [tier2])
    ensures content == "" ==> redacted == "" && hits == []
    ensures content != "" ==>
      var passes := [pem] + tier1 + [tier2];
      && redacted == TextAfter(content, passes, placeholder, |passes|)
      && hits == Report(content, passes, placeholder, |passes|)
      && Redaction(passes, placeholder, content, redacted, hits)
    ensures Newlines(redacted) == Newlines(content)
  {
    hide PassDone, Redaction, Newlines, HitsOf, PassChunks, Redacted, Report, TextAfter, Seen, Original, Flatten;
    hide ChunksOk, PieceOk;
    if content == "" {
      return "", [];
    }
    ghost var passes := [pem] + tier1 + [tier2];
    ghost var n := |passes|;
    var more: seq<Hit>;
    assert passes[0] == pem && passes[n - 1] == tier2;
    TextStep(content, passes, placeholder, 0);
    PassReports(content, passes, placeholder, 0);
    redacted, hits := Substitute(pem, placeholder, content);
    for i := 0 to |tier1|
      invariant redacted == TextAfter(content, passes, placeholder, i + 1)
      invariant hits == Report(content, passes, placeholder, i + 1)
    {
      assert passes[i + 1] == tier1[i];
      PassReports(content, passes, placeholder, i + 1);
      redacted, more := Substitute(tier1[i], placeholder, redacted);
      hits := hits + more;
    }
    PassReports(content, passes, placeholder, n - 1);
    redacted, more := Substitute(tier2, placeholder, redacted);
    hits := hits + more;
    RedactionPreservesLines(content, passes, placeholder, n);
    RedactionDone(content, passes, placeholder);
  }
}
