/**
 * Storage keys for uploaded files: the extension is taken with
 * `originalName.split(".").pop()` and appended to a fresh UUID.
 */
module FileKeys {

  /** JavaScript's `s.split(sep)` for a one-character separator: the pieces between
      separators, including empty ones; the empty string splits into `[""]`. */
  function Split(s: string, sep: char): (parts: seq<string>)
    ensures |parts| >= 1
    ensures forall k :: 0 <= k < |parts| ==> sep !in parts[k]
    decreases |s|
  {
    if |s| == 0 then [""]
    else
      var rest := Split(s[1..], sep);
      if s[0] == sep then [""] + rest
      else [[s[0]] + rest[0]] + rest[1..]
  }

  /** JavaScript's `parts.join(sep)`. */
  function Join(parts: seq<string>, sep: char): string
    requires |parts| >= 1
    decreases |parts|
  {
    if |parts| == 1 then parts[0] else parts[0] + [sep] + Join(parts[1..], sep)
  }

  /** Splitting and joining again gives back the original string. */
  lemma {:induction false} JoinSplit(s: string, sep: char)
    ensures Join(Split(s, sep), sep) == s
    decreases |s|
  {
    if |s| > 0 {
      JoinSplit(s[1..], sep);
      var rest := Split(s[1..], sep);
      if s[0] == sep {
        assert Split(s, sep) == [""] + rest;
        assert ([""] + rest)[1..] == rest;
      } else {
        var parts := [[s[0]] + rest[0]] + rest[1..];
        assert Split(s, sep) == parts;
        if |rest| == 1 {
          assert s == [s[0]] + s[1..];
        } else {
          assert parts[1..] == rest[1..];
          assert Join(rest, sep) == rest[0] + [sep] + Join(rest[1..], sep);
          assert s == [s[0]] + s[1..];
        }
      }
    }
  }

  /** The extension as `originalName.split(".").pop()` takes it: the last piece. */
  function Extension(originalName: string): (ext: string)
    ensures '.' !in ext && |ext| <= |originalName|
    ensures originalName[|originalName| - |ext|..] == ext
  {
    LastPieceIsSuffix(originalName, '.');
    var parts := Split(originalName, '.');
    parts[|parts| - 1]
  }

  /** A string splits into a single piece, itself, exactly when it holds no separator. */
  lemma {:induction false} SplitSingle(s: string, sep: char)
    ensures |Split(s, sep)| == 1 <==> sep !in s
    ensures sep !in s ==> Split(s, sep) == [s]
    decreases |s|
  {
    if |s| > 0 {
      SplitSingle(s[1..], sep);
      assert s == [s[0]] + s[1..];
    }
  }

  /** Once the string holds a separator, dropping its first character does not
      change the last piece. */
  lemma LastPieceOfTail(s: string, sep: char)
    requires |s| > 0 && sep in s
    ensures var parts := Split(s, sep); var rest := Split(s[1..], sep);
      parts[|parts| - 1] == rest[|rest| - 1]
  {
    if s[0] != sep {
      var i :| 0 <= i < |s| && s[i] == sep;
      assert s[1..][i - 1] == sep;
      SplitSingle(s[1..], sep);
    }
  }

  /** The last piece of a split is a suffix of the string with no separator in it,
      and it is the whole string exactly when the separator does not occur,
      otherwise it is what follows the last separator. */
  lemma {:induction false} LastPieceIsSuffix(s: string, sep: char)
    ensures var parts := Split(s, sep); var last := parts[|parts| - 1];
      |last| <= |s| && s[|s| - |last|..] == last && sep !in last &&
      (sep !in s ==> last == s) &&
      (sep in s ==> s[|s| - |last| - 1] == sep)
    decreases |s|
  {
    SplitSingle(s, sep);
    if sep in s {
      LastPieceIsSuffix(s[1..], sep);
      LastPieceOfTail(s, sep);
      var rest := Split(s[1..], sep);
      var last := rest[|rest| - 1];
      assert s[|s| - |last|..] == s[1..][|s[1..]| - |last|..];
      if sep in s[1..] {
        assert s[|s| - |last| - 1] == s[1..][|s[1..]| - |last| - 1];
      } else {
        assert last == s[1..];
      }
    }
  }

  /** The extension is the part of the name after its last `.`, or the whole name
      when it has no `.`; it never contains a `.`. */
  lemma ExtensionAfterLastDot(originalName: string)
    ensures var ext := Extension(originalName);
      '.' !in ext &&
      (('.' !in originalName) ==> ext == originalName) &&
      (('.' in originalName) ==>
         |ext| < |originalName| &&
         originalName == originalName[..|originalName| - |ext| - 1] + "." + ext)
  {
    LastPieceIsSuffix(originalName, '.');
    var ext := Extension(originalName);
    if '.' in originalName {
      var n := |originalName| - |ext|;
      assert originalName == originalName[..n - 1] + [originalName[n - 1]] + originalName[n..];
    }
  }

  lemma ElementInSuffix(s: string, i: int, k: nat)
    requires k <= |s|
    ensures |s| - k <= i < |s| ==> s[i] in s[|s| - k..]
  {
    if |s| - k <= i < |s| {
      assert s[|s| - k..][i - (|s| - k)] == s[i];
    }
  }

  /** Whatever precedes the last `.` does not matter: a name written as
      `prefix.ext` with a dot-free `ext` has extension `ext`. */
  lemma ExtensionOfDotted(prefix: string, ext: string)
    requires '.' !in ext
    ensures Extension(prefix + "." + ext) == ext
  {
    var s := prefix + "." + ext;
    LastPieceIsSuffix(s, '.');
    var last := Extension(s);
    var a, b := |last|, |ext|;
    assert s[|s| - b - 1] == '.' && s[|s| - b..] == ext;
    ElementInSuffix(s, |s| - b - 1, a);
    ElementInSuffix(s, |s| - a - 1, b);
    assert a == b;
  }

  /** A name that ends in `.` has an empty extension. */
  lemma TrailingDotGivesEmptyExtension(originalName: string)
    requires |originalName| > 0 && originalName[|originalName| - 1] == '.'
    ensures Extension(originalName) == ""
  {
    LastPieceIsSuffix(originalName, '.');
    ElementInSuffix(originalName, |originalName| - 1, |Extension(originalName)|);
  }

  /** `generateFileKey`: `${uuid}.${ext}`; the UUID that `crypto.randomUUID()`
      draws is a parameter. */
  function GenerateFileKey(originalName: string, uuid: string): (key: string)
    ensures |key| == |uuid| + 1 + |Extension(originalName)|
    ensures key[..|uuid|] == uuid && key[|uuid|] == '.'
  {
    uuid + "." + Extension(originalName)
  }

  /** The key ends with `.` and the extension, which holds no `.`, so the key's
      own extension is the original one. */
  lemma KeyKeepsExtension(originalName: string, uuid: string)
    ensures var key := GenerateFileKey(originalName, uuid); var ext := Extension(originalName);
      key[|key| - |ext| - 1..] == "." + ext && Extension(key) == ext
  {
    var ext := Extension(originalName);
    var key := uuid + "." + ext;
    assert key[|key| - |ext| - 1..] == "." + ext;
    ExtensionOfDotted(uuid, ext);
  }

  /** Splitting a key at its first `.` recovers the UUID and the extension,
      whenever the UUID has no `.` (a `crypto.randomUUID()` value is hex digits
      and hyphens). */
  function ParseKey(key: string): (r: (string, string))
    ensures |r.0| <= |key| && '.' !in r.0
    ensures '.' in key ==> key == r.0 + "." + r.1
    decreases |key|
  {
    if |key| == 0 then ("", "")
    else if key[0] == '.' then ("", key[1..])
    else
      var rest := ParseKey(key[1..]);
      ([key[0]] + rest.0, rest.1)
  }

  lemma {:induction false} ParseGeneratedKey(originalName: string, uuid: string)
    requires '.' !in uuid
    ensures ParseKey(GenerateFileKey(originalName, uuid)) == (uuid, Extension(originalName))
    decreases |uuid|
  {
    var ext := Extension(originalName);
    if |uuid| > 0 {
      ParseGeneratedKey(originalName, uuid[1..]);
      assert (uuid + "." + ext)[1..] == uuid[1..] + "." + ext;
      assert [uuid[0]] + uuid[1..] == uuid;
    } else {
      assert (uuid + "." + ext)[1..] == ext;
    }
  }

  /** The two edge cases of `split(".").pop()`: a name without `.` is its own
      extension, and a name ending in `.` has an empty one. */
  lemma NoDotExample(uuid: string)
    ensures GenerateFileKey("README", uuid) == uuid + ".README"
  {
    ExtensionAfterLastDot("README");
  }

  lemma TrailingDotExample(uuid: string)
    ensures GenerateFileKey("notes.", uuid) == uuid + "."
  {
    TrailingDotGivesEmptyExtension("notes.");
  }

  /** Only the piece after the last `.` is kept: any `name.png` gets a `.png`
      key, and any `name.tar.gz` a `.gz` key. */
  lemma PngExample(stem: string, uuid: string)
    ensures GenerateFileKey(stem + ".png", uuid) == uuid + ".png"
  {
    ExtensionOfDotted(stem, "png");
    assert stem + "." + "png" == stem + ".png";
  }

  lemma MultiDotExample(stem: string, uuid: string)
    ensures GenerateFileKey(stem + ".tar.gz", uuid) == uuid + ".gz"
  {
    ExtensionOfDotted(stem + ".tar", "gz");
    assert stem + ".tar" + "." + "gz" == stem + ".tar.gz";
  }
}
