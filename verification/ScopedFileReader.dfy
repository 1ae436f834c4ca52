/** Reading one file through the sandbox (scoped_file_reader.py), and how that agrees with the listing. */
module ScopedFileReader {
  import opened Wrappers
  import opened Text
  import opened SensitivePath
  import opened Workspace
  import opened ScopedFileExecutor
  import opened TreeListing
  import opened ListingExactness

  datatype Denial = BadPath(error: FileError) | NotFound | NotRegular | TooLarge | NotUtf8

  datatype Read = Text(content: string) | Denied(why: Denial)

  /** The checks in order; `size` is the length of a file in bytes. */
  function ReadScopedFile(h: Host, d: Disk, size: Content -> nat, path: string, maxBytes: int): Read {
    var key := h.Key(path);
    if PathRefusal(h, path).Some? then Denied(BadPath(PathRefusal(h, path).value))
    else if !d.Exists(key) then Denied(NotFound)
    else if key !in d.files then Denied(NotRegular)
    else if size(d.files[key]) > maxBytes then Denied(TooLarge)
    else match d.files[key]
      case Utf8(text) => Text(UniversalNewlines(text))
      case Binary(_) => Denied(NotUtf8)
  }

  /** Names a directory really holds: no empty name, and neither "." nor "..". */
  ghost predicate RealNames(path: seq<string>) {
    Slashless(path) && forall n | n in path :: n != "" && n != "." && n != ".."
  }

  lemma {:induction false} ResolveNames(base: Path, parts: seq<string>)
    requires RealNames(parts)
    ensures Resolve(base, parts) == base + parts
    decreases |parts|
  {
    if parts != [] {
      assert parts[0] in parts && forall n | n in parts[1..] :: n in parts;
      ResolveNames(base + [parts[0]], parts[1..]);
    }
  }

  /** A path the listing may show is its own real path. */
  lemma {:induction false} ShownIsReal(h: Host, at: Path, entries: seq<Entry>, path: seq<string>)
    requires h.Ok() && h.realpath(at) == at && Faithful(h, at, entries) && LeadsToFile(entries, path)
    ensures at + path !in h.links && h.realpath(at + path) == at + path
    decreases |path|
  {
    var e :| e in entries && e.name == path[0]
             && if |path| == 1 then e.node.File? else e.node.Directory? && LeadsToFile(e.node.entries, path[1..]);
    var next := at + [e.name];
    assert Dir(next) == at && next[|next| - 1] == e.name;
    if |path| == 1 {
      assert at + path == next;
    } else {
      ShownIsReal(h, next, e.node.entries, path[1..]);
      assert at + path == next + path[1..];
    }
  }

  lemma ShownStartsRelative(path: seq<string>)
    requires path != [] && RealNames(path)
    ensures Shown(path) == Join(path) && Shown(path) != "" && Shown(path)[0] != '/'
  {
    JoinIsPlain(path);
    SlashesStay(Join(path));
    assert path[0] in path && path[0][0] in path[0];
  }

  /**
   * The reader lets through every path the listing may show, except one that is nothing but blanks: such a
   * file is listed but cannot be asked for.
   */
  lemma ListedIsReadable(h: Host, top: seq<Entry>, path: seq<string>)
    requires h.Ok() && h.root != [] && h.realpath(h.root) == h.root && Faithful(h, h.root, top)
    requires MayBeShown(top, path) && RealNames(path)
    ensures h.Key(Shown(path)) == h.root + path
    ensures PathRefusal(h, Shown(path)) == None <==> !IsBlank(Shown(path))
  {
    hide IsSensitivePath, Faithful, LeadsToFile, Resolve, Split;
    assert path != [] by { LeadsSomewhere(top, path); }
    ShownStartsRelative(path);
    SplitJoin(path);
    ResolveNames(h.root, path);
    ShownIsReal(h, h.root, top, path);
    SensitiveIffSomeName(path);
  }

  lemma LeadsSomewhere(entries: seq<Entry>, path: seq<string>)
    requires LeadsToFile(entries, path)
    ensures path != []
  {
  }

  /** What the listing shows and the disk holds as small text, the reader returns. */
  lemma ListedTextIsRead(h: Host, d: Disk, size: Content -> nat, maxBytes: int, top: seq<Entry>, path: seq<string>)
    requires h.Ok() && h.root != [] && h.realpath(h.root) == h.root && Faithful(h, h.root, top)
    requires MayBeShown(top, path) && RealNames(path) && !IsBlank(Shown(path))
    requires h.root + path in d.files && d.files[h.root + path].Utf8? && size(d.files[h.root + path]) <= maxBytes
    ensures ReadScopedFile(h, d, size, Shown(path), maxBytes) == Text(UniversalNewlines(d.files[h.root + path].text))
  {
    ListedIsReadable(h, top, path);
  }
}
