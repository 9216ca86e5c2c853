/** What a file is called when its own name is taken (crates/ud-engine/src/transfer.rs:110-131). */
module Naming {
  import opened Wrappers
  import opened Paths

  /** The number that a string of digits spells. */
  function ValueOf(digits: string): nat
    requires AllDigits(digits)
  {
    if digits == "" then 0
    else 10 * ValueOf(digits[..|digits| - 1]) + (digits[|digits| - 1] as int - '0' as int)
  }

  predicate AllDigits(s: string) {
    forall i :: 0 <= i < |s| ==> '0' <= s[i] <= '9'
  }

  /** Numbers are spelt in digits, without a zero in front. */
  lemma {:induction false} DecimalSpells(n: nat)
    ensures AllDigits(Decimal(n)) && ValueOf(Decimal(n)) == n
    ensures n > 0 ==> Decimal(n)[0] != '0'
  {
    if n >= 10 {
      DecimalSpells(n / 10);
      assert Decimal(n)[..|Decimal(n)| - 1] == Decimal(n / 10);
    }
  }

  lemma {:induction false} LastDotOf(base: string, extension: string)
    requires base != "" && '.' !in extension
    ensures LastDot(base + "." + extension) == |base|
  {
    var name := base + "." + extension;
    if extension == "" {
      assert name[|name| - 1] == '.';
    } else {
      var shorter := extension[..|extension| - 1];
      assert name[|name| - 1] == extension[|extension| - 1];
      assert name[..|name| - 1] == base + "." + shorter;
      LastDotOf(base, shorter);
    }
  }

  lemma {:induction false} NoLastDot(name: string)
    requires name != "" && '.' !in name[1..]
    ensures LastDot(name) == 0
  {
    if |name| > 1 {
      assert name[|name| - 1] == name[1..][|name| - 2];
      assert name[..|name| - 1][1..] == name[1..][..|name| - 2];
      NoLastDot(name[..|name| - 1]);
    }
  }

  /** The number goes before the extension, which is what follows the last dot. */
  lemma NumberGoesBeforeTheExtension(path: Path, n: nat, base: string, extension: string)
    requires path != [] && path[|path| - 1] == base + "." + extension && base != "" && '.' !in extension
    ensures Numbered(path, n) == path[..|path| - 1] + [base + " (" + Decimal(n) + ")" + ("." + extension)]
  {
    LastDotOf(base, extension);
    var name := path[|path| - 1];
    assert name[..|base|] == base && name[|base|..] == "." + extension;
  }

  /** Without an extension the number comes last; a dot in front makes none. */
  lemma NumberComesLast(path: Path, n: nat)
    requires path != [] && path[|path| - 1] != "" && '.' !in path[|path| - 1][1..]
    ensures Numbered(path, n) == path[..|path| - 1] + [path[|path| - 1] + " (" + Decimal(n) + ")"]
  {
    NoLastDot(path[|path| - 1]);
    assert path[|path| - 1] + " (" + Decimal(n) + ")" + "" == path[|path| - 1] + " (" + Decimal(n) + ")";
  }

  /** `m` is the first number from `n` on that is free. */
  predicate FirstNumber(disk: Disk, path: Path, n: nat, m: nat)
    requires path != []
  {
    n <= m < NUMBERS && !disk.Exists(Numbered(path, m)) && forall l :: n <= l < m ==> disk.Exists(Numbered(path, l))
  }

  lemma {:induction false} FirstFreeIsTheFirst(disk: Disk, path: Path, n: nat) returns (m: nat)
    requires path != [] && 2 <= n <= NUMBERS
    ensures if FirstNumber(disk, path, n, m) then FirstFree(disk, path, n) == Numbered(path, m)
            else FirstFree(disk, path, n) == path && forall l :: n <= l < NUMBERS ==> disk.Exists(Numbered(path, l))
    decreases NUMBERS - n
  {
    m := n;
    if n < NUMBERS && disk.Exists(Numbered(path, n)) {
      m := FirstFreeIsTheFirst(disk, path, n + 1);
    }
  }

  /** The name itself if it is free; otherwise the first free number from 2; otherwise the name after all. */
  lemma ThePickedName(disk: Disk, path: Path)
    requires path != []
    ensures !disk.Exists(path) ==> UniquePath(disk, path) == path
    ensures disk.Exists(path) ==>
              || (exists m :: FirstNumber(disk, path, 2, m) && UniquePath(disk, path) == Numbered(path, m))
              || (UniquePath(disk, path) == path && forall l :: 2 <= l < NUMBERS ==> disk.Exists(Numbered(path, l)))
  {
    var m := FirstFreeIsTheFirst(disk, path, 2);
  }

  // ---- Both kinds of slash ----

  /** A path with backslashes for slashes. */
  function Backslashed(s: string): string {
    seq(|s|, i requires 0 <= i < |s| => if s[i] == '/' then '\\' else s[i])
  }

  /** Names joined by backslashes are the same names. */
  lemma BackslashesSeparateToo(names: seq<string>, root: Path)
    requires names != [] && AllSafe(names) && !HasColon(names) && ".." !in root
    ensures SanitizeRelative(Backslashed(Join(names)), root) == Ok(root + names)
  {
    var joined := Join(names);
    JoinedCharacters(names, '\\');
    assert Normalize(Backslashed(joined)) == joined;
    assert Normalize(joined) == joined;
    OfferedPathsAreAcceptedIffNoColon(names, root);
  }

  // ---- Which paths are accepted ----

  function NonEmpty(pieces: seq<string>): seq<string> {
    if pieces == [] then [] else (if pieces[0] == "" then [] else [pieces[0]]) + NonEmpty(pieces[1..])
  }

  lemma {:induction false} DescendsThroughThePieces(base: Path, pieces: seq<string>)
    ensures if AllSafe(NonEmpty(pieces)) then Descend(base, pieces) == Ok(base + NonEmpty(pieces)) else Descend(base, pieces).Err?
    decreases pieces
  {
    if pieces == [] {
      assert base + [] == base;
    } else {
      var rest := NonEmpty(pieces[1..]);
      ComponentAcceptedIffSafe(pieces[0]);
      if pieces[0] == "" {
        assert NonEmpty(pieces) == rest;
        DescendsThroughThePieces(base, pieces[1..]);
      } else {
        assert NonEmpty(pieces) == [pieces[0]] + rest;
        assert AllSafe(NonEmpty(pieces)) <==> SafeName(pieces[0]) && AllSafe(rest) by {
          if AllSafe(NonEmpty(pieces)) { assert pieces[0] in NonEmpty(pieces) && forall p :: p in rest ==> p in NonEmpty(pieces); }
        }
        DescendsThroughThePieces(base + [pieces[0]], pieces[1..]);
        assert base + [pieces[0]] + rest == base + ([pieces[0]] + rest);
      }
    }
  }

  predicate IsSlash(c: char) {
    c == '/' || c == '\\'
  }

  /** Exactly which paths are accepted, and what they come to: not one that starts with a slash of either kind or has a
      colon in it; otherwise its pieces between slashes, empty ones aside, if there are any and all are safe. */
  lemma PathIsAcceptedIff(relative: string, root: Path)
    requires ".." !in root
    ensures var pieces := NonEmpty(Split(Normalize(relative)));
            if (relative != "" && IsSlash(relative[0])) || ':' in relative || pieces == [] || !AllSafe(pieces)
            then SanitizeRelative(relative, root).Err?
            else SanitizeRelative(relative, root) == Ok(root + pieces)
  {
    var normalized := Normalize(relative);
    var pieces := NonEmpty(Split(normalized));
    DescendsThroughThePieces(root, Split(normalized));
    assert ':' in relative <==> ':' in normalized by {
      if ':' in relative { var i :| 0 <= i < |relative| && relative[i] == ':'; assert normalized[i] == ':'; }
      if ':' in normalized { var i :| 0 <= i < |normalized| && normalized[i] == ':'; assert relative[i] == ':'; }
    }
    if AllSafe(pieces) {
      assert ".." !in pieces;
      assert root + pieces == root <==> pieces == [] by { assert |root + pieces| == |root| + |pieces|; }
    }
  }

  // ---- Device names ----

  /** `name` is `word`, whatever the case of its letters. */
  predicate Spells(name: string, word: string) {
    && |name| == |word|
    && forall i :: 0 <= i < |name| ==>
         name[i] == word[i] || ('a' <= name[i] <= 'z' && name[i] as int - 'a' as int == word[i] as int - 'A' as int)
  }

  lemma {:induction false} FirstPartOf(base: string, rest: string)
    requires '.' !in base
    ensures FirstPart(base) == base && FirstPart(base + "." + rest) == base
  {
    if base == "" {
      assert ("" + "." + rest)[0] == '.';
    } else {
      assert (base + "." + rest)[1..] == base[1..] + "." + rest;
      FirstPartOf(base[1..], rest);
      assert base == [base[0]] + base[1..];
    }
  }

  lemma ReservedAreCapitals(word: string)
    requires word in WINDOWS_RESERVED
    ensures word != "" && forall i :: 0 <= i < |word| ==> word[i] != '.' && !('a' <= word[i] <= 'z')
  {
  }

  lemma SpeltInCapitals(name: string, word: string)
    requires Spells(name, word) && forall i :: 0 <= i < |word| ==> word[i] != '.' && !('a' <= word[i] <= 'z')
    ensures Uppercase(name) == word && '.' !in name
  {
    assert forall i :: 0 <= i < |name| ==> Uppercase(name)[i] == word[i];
    assert forall i :: 0 <= i < |name| ==> name[i] != '.';
  }

  /** The names of Windows devices are refused in any case, alone and with anything behind a dot. */
  lemma DeviceNamesAreRefused(base: string, rest: string, word: string)
    requires word in WINDOWS_RESERVED && Spells(base, word)
    ensures SanitizeComponent(base).Err? && SanitizeComponent(base + "." + rest).Err?
  {
    ReservedAreCapitals(word);
    SpeltInCapitals(base, word);
    FirstPartOf(base, rest);
    ReservedIsUnsafe(base, word);
    ReservedIsUnsafe(base + "." + rest, word);
  }

  lemma ReservedIsUnsafe(name: string, word: string)
    requires word in WINDOWS_RESERVED && Uppercase(FirstPart(name)) == word
    ensures SanitizeComponent(name).Err?
  {
    ComponentAcceptedIffSafe(name);
  }
}
