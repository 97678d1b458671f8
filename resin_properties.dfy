/**
 * `resin:properties`: imports `key: value` lines from a file (or from every
 * file of a fileset) into the global configuration property table.
 *
 * The global table is passed in and handed back as a map; a file is the
 * sequence of its lines.  An I/O failure while reading is logged and ends
 * the read of that file like the end of the file, so a file is represented
 * by the lines that can be read from it.
 */
module ResinProps {
  import opened Wrappers
  import opened JavaStrings

  type PathName = string
  type PropertyTable = map<string, string>

  datatype PropertiesError =
    | NullPath                              // setPath(null)
    | PathMissing                           // neither path nor fileset
    | RequiredFileUnreadable(path: PathName) // the path cannot be read
    | InvalidLine(path: PathName, line: string) // a line without a colon

  // Java's String.trim.

  /** `trim` removes every character up to and including the space. */
  predicate IsTrimmed(c: char)
  {
    c <= ' '
  }

  /** The first index from `i` on that holds a character `trim` keeps (or the length). */
  function FirstKept(s: string, i: nat): (r: nat)
    requires i <= |s|
    ensures i <= r <= |s|
    ensures r < |s| ==> !IsTrimmed(s[r])
    ensures forall k :: i <= k < r ==> IsTrimmed(s[k])
    decreases |s| - i
  {
    if i < |s| && IsTrimmed(s[i]) then FirstKept(s, i + 1) else i
  }

  /** The end of the kept part: `j` moved back over trimmed characters, not below `lo`. */
  function EndKept(s: string, lo: nat, j: nat): (r: nat)
    requires lo <= j <= |s|
    ensures lo <= r <= j
    ensures r > lo ==> !IsTrimmed(s[r - 1])
    ensures forall k :: r <= k < j ==> IsTrimmed(s[k])
    decreases j
  {
    if j > lo && IsTrimmed(s[j - 1]) then EndKept(s, lo, j - 1) else j
  }

  /** How many trimmed characters lead the text. */
  function Lead(s: string): nat
    ensures Lead(s) <= |s|
  {
    FirstKept(s, 0)
  }

  /**
   * `String.trim`: the text between its leading and its trailing trimmed
   * characters, so the result is empty or has no trimmed character at
   * either end.
   */
  function Trim(s: string): (r: string)
    ensures Lead(s) + |r| <= |s|
    ensures r == [] || (!IsTrimmed(r[0]) && !IsTrimmed(r[|r| - 1]))
  {
    var a := FirstKept(s, 0);
    s[a..EndKept(s, a, |s|)]
  }

  /**
   * `trim` keeps the text after the `Lead(s)` leading trimmed characters
   * and drops only trimmed characters after it.
   */
  lemma TrimShape(s: string)
    ensures forall j :: 0 <= j < |Trim(s)| ==> Trim(s)[j] == s[Lead(s) + j]
    ensures forall i :: 0 <= i < Lead(s) ==> IsTrimmed(s[i])
    ensures forall i :: Lead(s) + |Trim(s)| <= i < |s| ==> IsTrimmed(s[i])
  {
  }

  /** Text that `trim` leaves alone: empty, or no trimmed character at either end. */
  predicate HasTrimmedEnds(s: string)
  {
    s == [] || (!IsTrimmed(s[0]) && !IsTrimmed(s[|s| - 1]))
  }

  /** Text with no trimmed character at either end is its own trim. */
  lemma TrimOfTrimmed(s: string)
    requires HasTrimmedEnds(s)
    ensures Trim(s) == s
  {
    assert s[0..|s|] == s;
  }

  /** Trimming twice is trimming once. */
  lemma TrimIdempotent(s: string)
    ensures Trim(Trim(s)) == Trim(s)
  {
    TrimOfTrimmed(Trim(s));
  }

  /** Trimming adds no character. */
  lemma TrimKeepsAbsent(s: string, c: char)
    requires forall j :: 0 <= j < |s| ==> s[j] != c
    ensures forall j :: 0 <= j < |Trim(s)| ==> Trim(s)[j] != c
  {
    var r := Trim(s);
    TrimShape(s);
    forall j | 0 <= j < |r| ensures r[j] != c {
      assert r[j] == s[Lead(s) + j];
    }
  }

  // One line.

  /** What one line of the file means. */
  datatype Line = Skipped | Property(key: string, value: string) | Invalid(text: string)

  /** A trimmed line is skipped when it is empty or a `#` comment. */
  predicate IsSkipped(t: string)
  {
    t == [] || t[0] == '#'
  }

  /**
   * One line: trimmed; a blank line or comment is skipped; otherwise it
   * splits at its first colon into a trimmed key and a trimmed value, and a
   * line without a colon is invalid.
   */
  function ParseLine(line: string): (r: Line)
    ensures r.Skipped? <==> IsSkipped(Trim(line))
    ensures r.Invalid? <==> !IsSkipped(Trim(line)) && IndexOf(Trim(line), ':') < 0
    ensures r.Invalid? ==> r.text == Trim(line)
  {
    var t := Trim(line);
    if IsSkipped(t) then Skipped
    else
      var p := IndexOf(t, ':');
      if p < 0 then Invalid(t)
      else Property(Trim(t[..p]), Trim(t[p + 1..]))
  }

  /**
   * A property line splits at the first colon `p` of the trimmed line: the
   * key is the trimmed text before it, the value the trimmed text after it.
   */
  lemma PropertySplit(line: string) returns (p: nat)
    requires ParseLine(line).Property?
    ensures p < |Trim(line)| && Trim(line)[p] == ':'
    ensures forall j :: 0 <= j < p ==> Trim(line)[j] != ':'
    ensures ParseLine(line).key == Trim(Trim(line)[..p])
    ensures ParseLine(line).value == Trim(Trim(line)[p + 1..])
  {
    p := IndexOf(Trim(line), ':');
  }


  /** The key holds no colon; only the value may. */
  lemma KeyHasNoColon(line: string)
    requires ParseLine(line).Property?
    ensures ':' !in ParseLine(line).key
  {
    var p := PropertySplit(line);
    var t := Trim(line)[..p];
    assert forall j :: 0 <= j < |t| ==> t[j] == Trim(line)[j];
    TrimKeepsAbsent(t, ':');
  }


  /** The shape of a written line `key:value`. */
  lemma WrittenLineShape(k: string, v: string)
    ensures var line := k + ":" + v;
      && |line| == |k| + 1 + |v|
      && line[0] == (if k == [] then ':' else k[0])
      && line[|line| - 1] == (if v == [] then ':' else v[|v| - 1])
      && line[..|k|] == k && line[|k| + 1..] == v
      && line == k + ([':'] + v)
  {
  }

  /** A trimmed, non-comment line whose first colon is at `p` holds the trimmed parts around it. */
  lemma ParseAt(line: string, p: nat, k: string, v: string)
    requires HasTrimmedEnds(line) && !IsSkipped(line)
    requires IndexOf(line, ':') == p
    requires line[..p] == k && HasTrimmedEnds(k)
    requires line[p + 1..] == v && HasTrimmedEnds(v)
    ensures ParseLine(line) == Property(k, v)
  {
    TrimOfTrimmed(line);
    TrimOfTrimmed(k);
    TrimOfTrimmed(v);
  }

  /**
   * Round trip: a line written as `key:value`, with a colon-free key that
   * does not start a comment and both parts already trimmed, reads back as
   * that key and that value, colons in the value included.
   */
  lemma ParseWrittenLine(k: string, v: string)
    requires HasTrimmedEnds(k) && HasTrimmedEnds(v)
    requires ':' !in k
    requires k == [] || k[0] != '#'
    ensures ParseLine(k + ":" + v) == Property(k, v)
  {
    var line := k + ":" + v;
    WrittenLineShape(k, v);
    assert HasTrimmedEnds(line) && !IsSkipped(line);
    IndexOfAfter(k, [':'] + v, ':');
    assert IndexOf(line, ':') == |k|;
    ParseAt(line, |k|, k, v);
  }

  // A file.

  /**
   * The table after reading `lines` in order, and the error of the first
   * invalid line if there is one; the lines before it stay applied.
   */
  function ApplyLines(table: PropertyTable, path: PathName, lines: seq<string>): (r: (PropertyTable, Option<PropertiesError>))
    ensures r.1.Some? ==> r.1.value.InvalidLine? && r.1.value.path == path
    decreases |lines|
  {
    if lines == [] then (table, None)
    else match ParseLine(lines[0])
      case Skipped => ApplyLines(table, path, lines[1..])
      case Property(k, v) => ApplyLines(table[k := v], path, lines[1..])
      case Invalid(t) => (table, Some(InvalidLine(path, t)))
  }

  /** Reading `a + b` is reading `a`, then (if `a` had no invalid line) `b`. */
  lemma {:induction false} ApplyLinesConcat(table: PropertyTable, path: PathName, a: seq<string>, b: seq<string>)
    ensures ApplyLines(table, path, a + b) ==
      var ra := ApplyLines(table, path, a);
      if ra.1.Some? then ra else ApplyLines(ra.0, path, b)
    decreases |a|
  {
    if a == [] {
      assert a + b == b;
    } else {
      assert (a + b)[0] == a[0];
      assert (a + b)[1..] == a[1..] + b;
      match ParseLine(a[0])
      case Skipped => ApplyLinesConcat(table, path, a[1..], b);
      case Property(k, v) => ApplyLinesConcat(table[k := v], path, a[1..], b);
      case Invalid(_) =>
    }
  }

  /** A blank or comment line leaves the table as it is. */
  lemma SkippedLineKeepsTable(table: PropertyTable, path: PathName, line: string)
    requires IsSkipped(Trim(line))
    ensures ApplyLines(table, path, [line]) == (table, None)
  {
    assert [line][1..] == [];
  }

  /** A non-blank, non-comment line without a colon is a configuration error. */
  lemma NoColonLineFails(table: PropertyTable, path: PathName, line: string)
    requires !IsSkipped(Trim(line)) && ':' !in Trim(line)
    ensures ApplyLines(table, path, [line]) == (table, Some(InvalidLine(path, Trim(line))))
  {
  }

  /** Lines apply in order: after error-free lines, a last property line sets its key to its value. */
  lemma LaterLineOverwrites(table: PropertyTable, path: PathName, lines: seq<string>, line: string)
    requires ApplyLines(table, path, lines).1.None?
    requires ParseLine(line).Property?
    ensures var r := ApplyLines(table, path, lines + [line]);
      r.1.None? && ParseLine(line).key in r.0 && r.0[ParseLine(line).key] == ParseLine(line).value
  {
    ApplyLinesConcat(table, path, lines, [line]);
    var t := ApplyLines(table, path, lines).0;
    var k, v := ParseLine(line).key, ParseLine(line).value;
    assert [line][0] == line && [line][1..] == [];
    assert ApplyLines(t, path, [line]) == ApplyLines(t[k := v], path, []);
  }

  /**
   * `readProperties`: the line loop.  A line without a colon stops the read
   * with its error; every line before it has been applied.
   */
  method ReadProperties(table: PropertyTable, path: PathName, lines: seq<string>)
    returns (t: PropertyTable, err: Option<PropertiesError>)
    ensures (t, err) == ApplyLines(table, path, lines)
  {
    t := table;
    var i := 0;
    while i < |lines|
      invariant 0 <= i <= |lines|
      invariant ApplyLines(t, path, lines[i..]) == ApplyLines(table, path, lines)
    {
      assert lines[i..][1..] == lines[i + 1..];
      var line := ParseLine(lines[i]);
      match line {
        case Skipped =>
        case Property(k, v) =>
          t := t[k := v];
        case Invalid(text) =>
          return t, Some(InvalidLine(path, text));
      }
      i := i + 1;
    }
    return t, None;
  }

  // The file system as `init` sees it.

  datatype PathInfo = PathInfo(canRead: bool, isDirectory: bool, doesExist: bool, lines: seq<string>)

  type FileSystem = map<PathName, PathInfo>

  /** What the file system says of a path; an unknown path does not exist. */
  function Info(fs: FileSystem, p: PathName): PathInfo
  {
    if p in fs then fs[p] else PathInfo(false, false, false, [])
  }

  /** The lines read from a path; one that cannot be opened gives none. */
  function LinesOf(fs: FileSystem, p: PathName): seq<string>
  {
    var info := Info(fs, p);
    if info.canRead && !info.isDirectory then info.lines else []
  }

  /** The table after reading each path in order, stopping at the first invalid line. */
  function ApplyPaths(table: PropertyTable, fs: FileSystem, paths: seq<PathName>): (PropertyTable, Option<PropertiesError>)
    decreases |paths|
  {
    if paths == [] then (table, None)
    else
      var r := ApplyLines(table, paths[0], LinesOf(fs, paths[0]));
      if r.1.Some? then r else ApplyPaths(r.0, fs, paths[1..])
  }

  /** What `init` does with its configuration. */
  datatype InitPlan = ReadPaths(paths: seq<PathName>) | SkipOptional | Refuse(error: PropertiesError)

  /**
   * The decision of `init`: without a path a fileset is required; a path
   * must be a readable non-directory, unless it is optional and does not exist.
   * A fileset, when present, replaces the single path.
   */
  function Plan(path: Option<PathName>, fileSet: Option<seq<PathName>>, isOptional: bool, fs: FileSystem): (plan: InitPlan)
    ensures path.None? && fileSet.None? ==> plan == Refuse(PathMissing)
    ensures path.None? && fileSet.Some? ==> plan == ReadPaths(fileSet.value)
    ensures path.Some? ==>
      var info := Info(fs, path.value);
      && (info.canRead && !info.isDirectory ==> plan.ReadPaths?)
      && (!(info.canRead && !info.isDirectory) && isOptional && !info.doesExist ==> plan == SkipOptional)
      && (!(info.canRead && !info.isDirectory) && !(isOptional && !info.doesExist) ==>
            plan == Refuse(RequiredFileUnreadable(path.value)))
    ensures plan.ReadPaths? ==> plan.paths == if fileSet.Some? then fileSet.value else [path.value]
  {
    if path.None? then
      if fileSet.None? then Refuse(PathMissing) else ReadPaths(fileSet.value)
    else
      var info := Info(fs, path.value);
      if info.canRead && !info.isDirectory then
        ReadPaths(if fileSet.Some? then fileSet.value else [path.value])
      else if isOptional && !info.doesExist then SkipOptional
      else Refuse(RequiredFileUnreadable(path.value))
  }

  /** The whole of `init`, as a function of the configuration, the file system and the table. */
  function InitResult(path: Option<PathName>, fileSet: Option<seq<PathName>>, isOptional: bool,
                      fs: FileSystem, table: PropertyTable): (PropertyTable, Option<PropertiesError>)
  {
    match Plan(path, fileSet, isOptional, fs)
    case ReadPaths(paths) => ApplyPaths(table, fs, paths)
    case SkipOptional => (table, None)
    case Refuse(e) => (table, Some(e))
  }

  /** A fileset's files are read in order: reading `a + b` is reading `a`, then `b`. */
  lemma {:induction false} ApplyPathsConcat(table: PropertyTable, fs: FileSystem, a: seq<PathName>, b: seq<PathName>)
    ensures ApplyPaths(table, fs, a + b) ==
      var ra := ApplyPaths(table, fs, a);
      if ra.1.Some? then ra else ApplyPaths(ra.0, fs, b)
    decreases |a|
  {
    if a == [] {
      assert a + b == b;
    } else {
      assert (a + b)[0] == a[0];
      assert (a + b)[1..] == a[1..] + b;
      var r := ApplyLines(table, a[0], LinesOf(fs, a[0]));
      if r.1.None? {
        ApplyPathsConcat(r.0, fs, a[1..], b);
      }
    }
  }

  /** A single readable path is read exactly as its file. */
  lemma InitReadsSinglePath(p: PathName, isOptional: bool, fs: FileSystem, table: PropertyTable)
    requires Info(fs, p).canRead && !Info(fs, p).isDirectory
    ensures InitResult(Some(p), None, isOptional, fs, table) == ApplyLines(table, p, Info(fs, p).lines)
  {
    assert Plan(Some(p), None, isOptional, fs) == ReadPaths([p]);
    assert [p][0] == p && [p][1..] == [];
    var r := ApplyLines(table, p, LinesOf(fs, p));
    assert ApplyPaths(r.0, fs, []) == (r.0, None);
  }

  /** The `resin:properties` element: its path, fileset and optional flag. */
  class ResinProperties {
    var path: Option<PathName>
    var fileSet: Option<seq<PathName>>
    var isOptional: bool

    constructor ()
      ensures path == None && fileSet == None && !isOptional
    {
      path := None;
      fileSet := None;
      isOptional := false;
    }

    /** `setPath`: a null path is refused and leaves the path as it was. */
    method SetPath(p: Option<PathName>) returns (o: Outcome<PropertiesError>)
      modifies this`path
      ensures o == Pass <==> p.Some?
      ensures o.Fail? ==> o.error == NullPath && path == old(path)
      ensures o == Pass ==> path == p
    {
      if p.None? {
        return Fail(NullPath);
      }
      path := p;
      return Pass;
    }

    method SetFileset(fs: Option<seq<PathName>>)
      modifies this`fileSet
      ensures fileSet == fs
    {
      fileSet := fs;
    }

    method SetOptional(optional: bool)
      modifies this`isOptional
      ensures isOptional == optional
    {
      isOptional := optional;
    }

    /** `init`: decides what to read, then reads each path in order. */
    method Init(fs: FileSystem, table: PropertyTable) returns (t: PropertyTable, err: Option<PropertiesError>)
      ensures (t, err) == InitResult(path, fileSet, isOptional, fs, table)
    {
      var plan := Plan(path, fileSet, isOptional, fs);
      match plan {
        case Refuse(e) =>
          return table, Some(e);
        case SkipOptional =>
          return table, None;
        case ReadPaths(paths) =>
          t := table;
          for i := 0 to |paths|
            invariant ApplyPaths(t, fs, paths[i..]) == ApplyPaths(table, fs, paths)
          {
            assert paths[i..][1..] == paths[i + 1..];
            var lineErr;
            t, lineErr := ReadProperties(t, paths[i], LinesOf(fs, paths[i]));
            if lineErr.Some? {
              return t, lineErr;
            }
          }
          return t, None;
      }
    }
  }
}
