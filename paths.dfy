/**
 * File names as the upload handlers and the worker treat them: Python's
 * `Path(name).name`, `.stem` and `.suffix`, the extension allow-list check,
 * the name a stored upload gets and the name of its converted output.
 */
module Paths {
  import opened Text

  /** Input containers the upload handlers accept (`allowed_extensions`). */
  const AllowedExtensions: seq<string> := ["avi", "mov", "mkv", "wmv", "mp4", "webm"]

  /** `Path(p).name`: the text after the last '/'. */
  function Name(p: string): (r: string)
    ensures '/' !in r
  {
    var i := LastIndexOf(p, '/');
    p[i + 1..]
  }

  /** The name is what follows the last '/' of the path: all of it when there is none. */
  lemma NameIsLastComponent(p: string)
    ensures var r := Name(p);
      && |r| <= |p| && r == p[|p| - |r|..]
      && (|r| < |p| ==> p[|p| - |r| - 1] == '/')
  {
  }

  /** Position of the dot that starts the suffix of a final path component, if any. */
  function SuffixDot(name: string): (r: int)
    ensures -1 <= r < |name|
    ensures r >= 0 ==> 0 < r < |name| - 1 && name[r] == '.'
  {
    var i := LastIndexOf(name, '.');
    if 0 < i < |name| - 1 then i else -1
  }

  /**
   * The suffix dot is the last dot of the name, and there is none exactly
   * when no dot lies strictly inside the name or the name ends with a dot.
   */
  lemma SuffixDotIsLast(name: string)
    ensures var r := SuffixDot(name);
      && (r >= 0 ==> forall k :: r < k < |name| ==> name[k] != '.')
      && (r == -1 <==> forall k :: 0 < k < |name| - 1 && name[k] == '.' ==> name[|name| - 1] == '.')
  {
  }

  /** `Path(p).suffix`: from the last dot on, unless that dot leads or ends the name. */
  function Suffix(p: string): string {
    var name := Name(p);
    var i := SuffixDot(name);
    if i < 0 then "" else name[i..]
  }

  /** `Path(p).stem`: the final component without its suffix. */
  function Stem(p: string): string {
    var name := Name(p);
    var i := SuffixDot(name);
    if i < 0 then name else name[..i]
  }

  /** `Path(filename).suffix.lower()`: the extension shown in the rejection message. */
  function Extension(filename: string): string {
    Lower(Suffix(filename))
  }

  /** `ext[1:]`: the extension without its dot, the key looked up in the allow-list. */
  function ExtensionKey(filename: string): string {
    var ext := Extension(filename);
    if ext == "" then "" else ext[1..]
  }

  predicate IsAllowed(filename: string) {
    ExtensionKey(filename) in AllowedExtensions
  }

  /** `f"{base_name}_{random.randint(1000, 9999)}{ext}"`, with the draw passed in as `tag`. */
  function StoredName(filename: string, tag: nat): string {
    Stem(filename) + "_" + Decimal(tag) + Extension(filename)
  }

  /** `f"converted_{Path(input_filename).stem}.mp4"`. */
  function ConvertedName(input: string): string {
    "converted_" + Stem(input) + ".mp4"
  }

  /** Joining a stem and an extension with a dot splits back into the same two parts. */
  lemma StemSuffixOfJoin(stem: string, ext: string)
    requires stem != [] && ext != []
    requires '/' !in stem && '/' !in ext && '.' !in ext
    ensures Suffix(stem + "." + ext) == "." + ext
    ensures Stem(stem + "." + ext) == stem
  {
    var p := stem + "." + ext;
    assert '/' !in p by {
      forall k | 0 <= k < |p| ensures p[k] != '/' {
        if k < |stem| { assert p[k] == stem[k]; }
        else if k > |stem| { assert p[k] == ext[k - |stem| - 1]; }
      }
    }
    LastIndexOfNotIn(p, '/');
    assert Name(p) == p;
    assert p[|stem|] == '.';
    forall k | |stem| < k < |p| ensures p[k] != '.' {
      assert p[k] == ext[k - |stem| - 1];
    }
    LastIndexOfAfter(p, '.', |stem|);
    assert SuffixDot(p) == |stem|;
    assert p[|stem|..] == "." + ext;
    assert p[..|stem|] == stem;
  }

  /** A name is accepted exactly when the part after its dot lower-cases to an allowed extension. */
  lemma AcceptedIff(stem: string, ext: string)
    requires stem != [] && ext != []
    requires '/' !in stem && '/' !in ext && '.' !in ext
    ensures IsAllowed(stem + "." + ext) <==> Lower(ext) in AllowedExtensions
  {
    var p := stem + "." + ext;
    StemSuffixOfJoin(stem, ext);
    LowerDot(ext);
    assert Extension(p) == "." + Lower(ext);
    assert ExtensionKey(p) == ("." + Lower(ext))[1..] == Lower(ext);
  }

  /**
   * A final component with no dot strictly inside it (no dot at all, only a
   * leading dot as in ".mp4", or only a trailing one) has no suffix and is rejected.
   */
  lemma NoInnerDotRejected(filename: string)
    requires forall k :: 0 < k < |Name(filename)| - 1 ==> Name(filename)[k] != '.'
    ensures Suffix(filename) == "" && !IsAllowed(filename)
  {
    assert !("" in AllowedExtensions);
  }

  /** The stored copy of an accepted upload is itself accepted, with the lower-cased extension. */
  lemma StoredNameAccepted(filename: string, tag: nat)
    requires IsAllowed(filename)
    ensures Suffix(StoredName(filename, tag)) == Extension(filename)
    ensures Stem(StoredName(filename, tag)) == Stem(filename) + "_" + Decimal(tag)
    ensures IsAllowed(StoredName(filename, tag))
  {
    if Suffix(filename) == "" {
      EmptySuffixRejected(filename);
    }
    var lext := StoredNameParts(filename, tag);
    LowerDot(lext);
    assert Extension(StoredName(filename, tag)) == "." + lext;
    assert ExtensionKey(StoredName(filename, tag)) == lext == ExtensionKey(filename);
  }

  /** A name with a suffix is stored as `stem_tag` followed by its lower-cased suffix. */
  lemma StoredNameParts(filename: string, tag: nat) returns (lext: string)
    requires Suffix(filename) != ""
    ensures Extension(filename) == "." + lext && Lower(lext) == lext
    ensures Suffix(StoredName(filename, tag)) == Extension(filename)
    ensures Stem(StoredName(filename, tag)) == Stem(filename) + "_" + Decimal(tag)
  {
    var ext := SuffixParts(filename);
    lext := Lower(ext);
    LowerKeepsAbsent(ext, '.');
    LowerKeepsAbsent(ext, '/');
    LowerDot(ext);
    var base := Stem(filename) + "_" + Decimal(tag);
    DecimalHasNoSlash(tag);
    assert '/' !in base;
    assert StoredName(filename, tag) == base + "." + lext;
    StemSuffixOfJoin(base, lext);
    LowerIdempotent(ext);
  }

  lemma EmptySuffixRejected(filename: string)
    requires Suffix(filename) == ""
    ensures !IsAllowed(filename)
  {
    assert Lower("") == "";
    assert ExtensionKey(filename) == "";
    assert !("" in AllowedExtensions);
  }

  lemma LowerDot(ext: string)
    ensures Lower("." + ext) == "." + Lower(ext)
  {
  }

  /** A non-empty suffix is a dot and a non-empty extension free of dots and slashes. */
  lemma SuffixParts(filename: string) returns (ext: string)
    requires Suffix(filename) != ""
    ensures Suffix(filename) == "." + ext
    ensures ext != [] && '.' !in ext && '/' !in ext
    ensures Stem(filename) != [] && '/' !in Stem(filename)
  {
    var name := Name(filename);
    var i := SuffixDot(name);
    ext := ComponentExtension(name, i);
    ComponentStem(name, i);
  }

  /** The text after the suffix dot of a final component: non-empty, with no dot and no slash. */
  lemma ComponentExtension(name: string, i: int) returns (ext: string)
    requires '/' !in name && i == SuffixDot(name) && 0 <= i
    ensures name[i..] == "." + ext
    ensures ext != [] && '.' !in ext && '/' !in ext
  {
    assert 0 < i < |name| - 1 && name[i] == '.';
    ext := name[i + 1..];
    assert name[i..] == [name[i]] + ext;
    forall k | 0 <= k < |ext| ensures ext[k] != '.' && ext[k] != '/' {
      assert ext[k] == name[i + 1 + k];
    }
  }

  /** The text before the suffix dot of a final component: non-empty, with no slash. */
  lemma ComponentStem(name: string, i: int)
    requires '/' !in name && i == SuffixDot(name) && 0 <= i
    ensures name[..i] != [] && '/' !in name[..i]
  {
    forall k | 0 <= k < i ensures name[..i][k] != '/' {
      assert name[..i][k] == name[k];
    }
  }

  lemma LowerKeepsAbsent(s: string, c: char)
    requires c !in s && !('A' <= c <= 'Z') && !('a' <= c <= 'z')
    ensures c !in Lower(s)
  {
    forall k | 0 <= k < |s| ensures Lower(s)[k] != c {
      assert Lower(s)[k] == LowerChar(s[k]);
    }
  }

  lemma DecimalHasNoSlash(n: nat)
    ensures '/' !in Decimal(n)
  {
    var d := Decimal(n);
    forall k | 0 <= k < |d| ensures d[k] != '/' {
      assert IsDigit(d[k]);
    }
  }

  /** The converted output of a stored upload is named after the upload's stem and tag. */
  lemma ConvertedNameOfStored(filename: string, tag: nat)
    requires IsAllowed(filename)
    ensures ConvertedName(StoredName(filename, tag))
            == "converted_" + (Stem(filename) + "_" + Decimal(tag)) + ".mp4"
  {
    if Suffix(filename) == "" {
      EmptySuffixRejected(filename);
    }
    var _ := StoredNameParts(filename, tag);
  }

  lemma LastIndexOfNotIn(s: string, c: char)
    requires c !in s
    ensures LastIndexOf(s, c) == -1
  {
    if s != [] {
      assert s[..|s| - 1] <= s;
      LastIndexOfNotIn(s[..|s| - 1], c);
    }
  }

  /** The last `c` in `s` is at `i` when `s[i] == c` and none follows it. */
  lemma LastIndexOfAfter(s: string, c: char, i: nat)
    requires i < |s| && s[i] == c
    requires forall k :: i < k < |s| ==> s[k] != c
    ensures LastIndexOf(s, c) == i
  {
    if i < |s| - 1 {
      LastIndexOfAfter(s[..|s| - 1], c, i);
    }
  }

  lemma LowerIdempotent(s: string)
    ensures Lower(Lower(s)) == Lower(s)
  {
  }
}
