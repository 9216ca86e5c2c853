/** Received paths: validation, and names that step on nothing
    (crates/ud-engine/src/transfer.rs:39-131). */
module Paths {
  import opened Wrappers
  import opened Codec

  /** An absolute path, one component per element. */
  type Path = seq<string>

  /** A file system: what every file holds, and which directories there are. */
  datatype Disk = Disk(files: map<Path, Bytes>, dirs: set<Path>) {
    predicate Exists(path: Path) {
      path in files || path in dirs
    }
  }

  const WINDOWS_RESERVED: seq<string> := [
    "CON", "PRN", "AUX", "NUL", "COM1", "COM2", "COM3", "COM4", "COM5", "COM6", "COM7", "COM8", "COM9",
    "LPT1", "LPT2", "LPT3", "LPT4", "LPT5", "LPT6", "LPT7", "LPT8", "LPT9"]

  // ---- One component ----

  /** The Unicode White_Space property. */
  predicate IsWhitespace(c: char) {
    var u := c as int;
    0x9 <= u <= 0xd || u == 0x20 || u == 0x85 || u == 0xa0 || u == 0x1680 || 0x2000 <= u <= 0x200a
    || u == 0x2028 || u == 0x2029 || u == 0x202f || u == 0x205f || u == 0x3000
  }

  function TrimStart(s: string): string {
    if s != "" && IsWhitespace(s[0]) then TrimStart(s[1..]) else s
  }

  function TrimEnd(s: string): string {
    if s != "" && IsWhitespace(s[|s| - 1]) then TrimEnd(s[..|s| - 1]) else s
  }

  function Trim(s: string): string {
    TrimEnd(TrimStart(s))
  }

  /** What comes before the first dot. */
  function FirstPart(s: string): string {
    if s == "" || s[0] == '.' then "" else [s[0]] + FirstPart(s[1..])
  }

  function Uppercase(s: string): string {
    seq(|s|, i requires 0 <= i < |s| => if 'a' <= s[i] <= 'z' then (s[i] as int - 32) as char else s[i])
  }

  function SanitizeComponent(component: string): Result<string> {
    var trimmed := Trim(component);
    if trimmed == "" || trimmed == "." || trimmed == ".." then Err(component)
    else if trimmed != component then Err(component)
    else if '/' in trimmed || '\\' in trimmed || '\0' in trimmed then Err(component)
    else if Uppercase(FirstPart(trimmed)) in WINDOWS_RESERVED then Err(component)
    else if trimmed[|trimmed| - 1] == '.' then Err(component)
    else if exists i :: 0 <= i < |trimmed| && trimmed[i] as int < 0x20 then Err(component)
    else Ok(trimmed)
  }

  /** A name that means the same on every platform and stays where it is put. */
  predicate SafeName(name: string) {
    && name != "" && name != "." && name != ".."
    && !IsWhitespace(name[0]) && !IsWhitespace(name[|name| - 1]) && name[|name| - 1] != '.'
    && '/' !in name && '\\' !in name
    && (forall i :: 0 <= i < |name| ==> name[i] as int >= 0x20)
    && Uppercase(FirstPart(name)) !in WINDOWS_RESERVED
  }

  lemma {:induction false} TrimStartShrinks(s: string)
    ensures |TrimStart(s)| < |s| || TrimStart(s) == s
    ensures TrimStart(s) == s <==> s == "" || !IsWhitespace(s[0])
  {
    if s != "" && IsWhitespace(s[0]) { TrimStartShrinks(s[1..]); }
  }

  lemma {:induction false} TrimEndShrinks(s: string)
    ensures |TrimEnd(s)| <= |s|
    ensures TrimEnd(s) == s <==> s == "" || !IsWhitespace(s[|s| - 1])
  {
    if s != "" && IsWhitespace(s[|s| - 1]) { TrimEndShrinks(s[..|s| - 1]); }
  }

  /** Validation accepts exactly the safe names, and returns them unchanged. */
  lemma ComponentAcceptedIffSafe(component: string)
    ensures SanitizeComponent(component) == if SafeName(component) then Ok(component) else Err(component)
  {
    TrimStartShrinks(component);
    TrimEndShrinks(TrimStart(component));
  }

  // ---- Relative paths ----

  /** Every backslash becomes a slash. */
  function Normalize(relative: string): string {
    seq(|relative|, i requires 0 <= i < |relative| => if relative[i] == '\\' then '/' else relative[i])
  }

  /** The pieces between slashes, empty ones included. */
  function Split(s: string): (pieces: seq<string>)
    ensures pieces != []
  {
    if s == "" then [""]
    else
      var rest := Split(s[1..]);
      if s[0] == '/' then [""] + rest else [[s[0]] + rest[0]] + rest[1..]
  }

  /** Validates the non-empty pieces in turn and appends them to `base`. */
  function Descend(base: Path, pieces: seq<string>): Result<Path>
    decreases pieces
  {
    if pieces == [] then Ok(base)
    else if pieces[0] == "" then Descend(base, pieces[1..])
    else
      match SanitizeComponent(pieces[0])
      case Ok(name) => Descend(base + [name], pieces[1..])
      case Err(reason) => Err(reason)
  }

  function SanitizeRelative(relative: string, root: Path): Result<Path> {
    var normalized := Normalize(relative);
    if (normalized != "" && normalized[0] == '/') || ':' in normalized then Err(relative)
    else
      match Descend(root, Split(normalized))
      case Err(reason) => Err(reason)
      case Ok(path) => if path == root || ".." in path then Err(relative) else Ok(path)
  }

  /** Validates an offered path name by name, building the path below `root` as it goes. */
  method ResolveRelative(relative: string, root: Path) returns (result: Result<Path>)
    ensures result == SanitizeRelative(relative, root)
  {
    var normalized := Normalize(relative);
    if (normalized != "" && normalized[0] == '/') || ':' in normalized {
      return Err(relative);
    }
    var pieces := Split(normalized);
    var out, components := root, 0;
    for i := 0 to |pieces|
      invariant Descend(root, pieces) == Descend(out, pieces[i..])
      invariant |out| == |root| + components && (components == 0 ==> out == root)
    {
      assert pieces[i..][1..] == pieces[i + 1..];
      if pieces[i] != "" {
        var name := SanitizeComponent(pieces[i]);
        if name.Err? {
          return Err(name.reason);
        }
        out := out + [name.value];
        components := components + 1;
      }
    }
    if components == 0 || ".." in out {
      return Err(relative);
    }
    return Ok(out);
  }

  predicate AllSafe(names: seq<string>) {
    forall name :: name in names ==> SafeName(name)
  }

  lemma {:induction false} DescentStaysBelow(base: Path, pieces: seq<string>)
    ensures var result := Descend(base, pieces);
            result.Ok? ==> base <= result.value && AllSafe(result.value[|base|..])
    decreases pieces
  {
    if pieces != [] {
      if pieces[0] == "" {
        DescentStaysBelow(base, pieces[1..]);
      } else {
        ComponentAcceptedIffSafe(pieces[0]);
        if SafeName(pieces[0]) {
          DescentStaysBelow(base + [pieces[0]], pieces[1..]);
          var result := Descend(base, pieces);
          if result.Ok? {
            assert result.value[|base|..] == [pieces[0]] + result.value[|base| + 1..];
          }
        }
      }
    }
  }

  /** Whatever a peer asks for, an accepted path lies strictly below the download directory and
      every component below it is a safe name; so none of them climbs back up. */
  lemma AcceptedPathsStayBelowTheRoot(relative: string, root: Path)
    requires SanitizeRelative(relative, root).Ok?
    ensures var path := SanitizeRelative(relative, root).value;
            root < path && AllSafe(path[|root|..]) && ".." !in path
  {
    DescentStaysBelow(root, Split(Normalize(relative)));
  }

  /** How nested names are written in an offer. */
  function Join(names: seq<string>): string {
    if names == [] then ""
    else if |names| == 1 then names[0]
    else Join(names[..|names| - 1]) + "/" + names[|names| - 1]
  }

  lemma {:induction false} SplitPlain(s: string)
    requires '/' !in s
    ensures Split(s) == [s]
  {
    if s != "" {
      assert forall c :: c in s[1..] ==> c in s;
      SplitPlain(s[1..]);
      assert s == [s[0]] + s[1..];
    }
  }

  lemma {:induction false} SplitAtSlash(head: string, tail: string)
    requires '/' !in tail
    ensures Split(head + "/" + tail) == Split(head) + [tail]
  {
    var s := head + "/" + tail;
    if head == "" {
      assert s == "/" + tail && s[1..] == tail;
      SplitPlain(tail);
    } else {
      assert s[1..] == head[1..] + "/" + tail;
      SplitAtSlash(head[1..], tail);
    }
  }

  lemma {:induction false} SplitUndoesJoin(names: seq<string>)
    requires names != [] && AllSafe(names)
    ensures Split(Join(names)) == names
  {
    var last := names[|names| - 1];
    assert last in names;
    if |names| == 1 {
      SplitPlain(names[0]);
    } else {
      var init := names[..|names| - 1];
      assert forall name :: name in init ==> name in names;
      SplitUndoesJoin(init);
      SplitAtSlash(Join(init), last);
      assert names == init + [last];
    }
  }

  lemma {:induction false} JoinedCharacters(names: seq<string>, c: char)
    requires c != '/'
    ensures c in Join(names) <==> exists name :: name in names && c in name
  {
    if |names| == 1 {
      assert names[0] in names;
    } else if names != [] {
      var init, last := names[..|names| - 1], names[|names| - 1];
      JoinedCharacters(init, c);
      assert names == init + [last];
    }
  }

  lemma {:induction false} DescendThroughSafeNames(base: Path, names: seq<string>)
    requires AllSafe(names)
    ensures Descend(base, names) == Ok(base + names)
    decreases names
  {
    if names != [] {
      assert names[0] in names && forall name :: name in names[1..] ==> name in names;
      ComponentAcceptedIffSafe(names[0]);
      DescendThroughSafeNames(base + [names[0]], names[1..]);
      assert base + names == base + [names[0]] + names[1..];
    } else {
      assert base + names == base;
    }
  }

  predicate HasColon(names: seq<string>) {
    exists name :: name in names && ':' in name
  }

  /** The sender offers names joined by slashes; the receiver arrives at the same names, exactly when
      none of them holds a colon. A colon passes the sender's check of each name but not the
      receiver's check of the whole path. */
  lemma OfferedPathsAreAcceptedIffNoColon(names: seq<string>, root: Path)
    requires names != [] && AllSafe(names) && ".." !in root
    ensures SanitizeRelative(Join(names), root)
         == if HasColon(names) then Err(Join(names)) else Ok(root + names)
  {
    var joined := Join(names);
    JoinedCharacters(names, '\\');
    assert Normalize(joined) == joined;
    JoinedCharacters(names, ':');
    SplitUndoesJoin(names);
    assert names[0] in names;
    assert joined != "" && joined[0] != '/' by {
      assert Split(joined)[0] == names[0] != "";
    }
    DescendThroughSafeNames(root, names);
  }

  // ---- Names that do not exist yet ----

  /** Where the last dot of a name is, unless there is none or it starts the name. */
  function LastDot(name: string): (at: nat)
    ensures at < |name| || (at == 0 && name == "")
  {
    if name == "" then 0
    else if name[|name| - 1] == '.' then |name| - 1
    else LastDot(name[..|name| - 1])
  }

  /** The name up to its last dot; a name whose only dot comes first has no extension. */
  function Stem(name: string): string {
    if LastDot(name) == 0 then name else name[..LastDot(name)]
  }

  function Extension(name: string): string {
    if LastDot(name) == 0 then "" else name[LastDot(name)..]
  }

  function Decimal(n: nat): (digits: string)
    ensures digits != ""
  {
    var digit := ('0' as int + n % 10) as char;
    if n < 10 then [digit] else Decimal(n / 10) + [digit]
  }

  /** `notes.txt` with number 2 is `notes (2).txt`. */
  function Numbered(path: Path, n: nat): Path
    requires path != []
  {
    var name := path[|path| - 1];
    path[..|path| - 1] + [Stem(name) + " (" + Decimal(n) + ")" + Extension(name)]
  }

  const NUMBERS := 10_000

  function FirstFree(disk: Disk, path: Path, n: nat): Path
    requires path != [] && 2 <= n <= NUMBERS
    decreases NUMBERS - n
  {
    if n == NUMBERS then path
    else if !disk.Exists(Numbered(path, n)) then Numbered(path, n)
    else FirstFree(disk, path, n + 1)
  }

  function UniquePath(disk: Disk, path: Path): Path
    requires path != []
  {
    if disk.Exists(path) then FirstFree(disk, path, 2) else path
  }

  method PickUniquePath(disk: Disk, path: Path) returns (picked: Path)
    requires path != []
    ensures picked == UniquePath(disk, path)
  {
    if !disk.Exists(path) {
      return path;
    }
    for n := 2 to NUMBERS
      invariant FirstFree(disk, path, 2) == FirstFree(disk, path, n)
    {
      var candidate := Numbered(path, n);
      if !disk.Exists(candidate) {
        return candidate;
      }
    }
    return path;
  }

  /** Some name among the path and its numbered variants is still free. */
  predicate HasRoom(disk: Disk, path: Path)
    requires path != []
  {
    !disk.Exists(path) || exists n :: 2 <= n < NUMBERS && !disk.Exists(Numbered(path, n))
  }

  /** The path picked is in the same directory, and it is free exactly when there is room; without
      room it is the existing path itself. */
  lemma UniquePathIsFreeIffRoom(disk: Disk, path: Path)
    requires path != []
    ensures var picked := UniquePath(disk, path);
            && |picked| == |path| && picked[..|path| - 1] == path[..|path| - 1]
            && (!disk.Exists(picked) <==> HasRoom(disk, path))
            && (!HasRoom(disk, path) ==> picked == path)
  {
    if disk.Exists(path) { FirstFreeIsFree(disk, path, 2); }
  }

  lemma {:induction false} FirstFreeIsFree(disk: Disk, path: Path, n: nat)
    requires path != [] && 2 <= n <= NUMBERS && disk.Exists(path)
    ensures var picked := FirstFree(disk, path, n);
            && |picked| == |path| && picked[..|path| - 1] == path[..|path| - 1]
            && (!disk.Exists(picked) <==> exists m :: n <= m < NUMBERS && !disk.Exists(Numbered(path, m)))
            && (disk.Exists(picked) ==> picked == path)
    decreases NUMBERS - n
  {
    if n < NUMBERS { FirstFreeIsFree(disk, path, n + 1); }
  }

  lemma {:induction false} DecimalIsInjective(m: nat, n: nat)
    requires Decimal(m) == Decimal(n)
    ensures m == n
  {
    var p, q := Decimal(m), Decimal(n);
    assert p[|p| - 1] == q[|q| - 1];
    if m >= 10 && n >= 10 {
      assert p[..|p| - 1] == Decimal(m / 10) && q[..|q| - 1] == Decimal(n / 10);
      DecimalIsInjective(m / 10, n / 10);
    }
  }

  lemma NumberedIsInjective(path: Path, m: nat, n: nat)
    requires path != []
    ensures Numbered(path, m) != path
    ensures m != n ==> Numbered(path, m) != Numbered(path, n)
  {
    var name := path[|path| - 1];
    var stem, extension := Stem(name), Extension(name);
    assert name == stem + extension;
    var p, q := stem + " (" + Decimal(m) + ")" + extension, stem + " (" + Decimal(n) + ")" + extension;
    assert |p| > |name|;
    assert Numbered(path, m)[|path| - 1] == p && Numbered(path, n)[|path| - 1] == q;
    if p == q {
      assert Decimal(m) == p[|stem| + 2..|p| - 1 - |extension|];
      assert Decimal(n) == q[|stem| + 2..|q| - 1 - |extension|];
      DecimalIsInjective(m, n);
    }
  }

  /** The path and its variants numbered below `n`. */
  function Candidates(path: Path, n: nat): set<Path>
    requires path != [] && 2 <= n
  {
    if n == 2 then {path} else Candidates(path, n - 1) + {Numbered(path, n - 1)}
  }

  lemma {:induction false} CandidatesAreDistinct(path: Path, n: nat)
    requires path != [] && 2 <= n
    ensures |Candidates(path, n)| == n - 1
    ensures forall p :: p in Candidates(path, n) <==> p == path || exists m :: 2 <= m < n && p == Numbered(path, m)
  {
    if n > 2 {
      CandidatesAreDistinct(path, n - 1);
      NumberedIsInjective(path, n - 1, n - 1);
      forall m | 2 <= m < n - 1 ensures Numbered(path, m) != Numbered(path, n - 1) {
        NumberedIsInjective(path, m, n - 1);
      }
    }
  }

  lemma {:induction false} SubsetIsNoLarger<T>(a: set<T>, b: set<T>)
    requires a <= b
    ensures |a| <= |b|
  {
    if a != {} {
      var x :| x in a;
      SubsetIsNoLarger(a - {x}, b - {x});
    }
  }

  /** What exists in the directory a path is in. */
  function Siblings(disk: Disk, path: Path): set<Path>
    requires path != []
  {
    set p | p in disk.files.Keys + disk.dirs && p != [] && p[..|p| - 1] == path[..|path| - 1]
  }

  /** A directory with fewer than 9,999 names in it always has room for one more. */
  lemma FewNamesLeaveRoom(disk: Disk, path: Path)
    requires path != [] && |Siblings(disk, path)| < NUMBERS - 1
    ensures HasRoom(disk, path)
  {
    if !HasRoom(disk, path) {
      CandidatesAreDistinct(path, NUMBERS);
      SubsetIsNoLarger(Candidates(path, NUMBERS), Siblings(disk, path));
    }
  }
}
