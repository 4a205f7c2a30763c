/** Path validation and decomposition of src/file/utils.ts:
    `assertFullPathWithName` and `extractPathInfo`. Strings are sequences of
    characters; `split('/')` and `join('/')` are modelled exactly. */
module Paths {
  import opened Results

  /** The errors the path checks throw, in the order they are tried. */
  datatype PathError =
    | PathEmpty          // 'Path is empty'
    | PathTruncatable    // 'Path to contain characters that can be truncated'
    | PathNotAbsolute    // 'Path must start with "/"'
    | PathNoName         // 'Path must contain at least one file or directory name'
    | NameEmpty          // 'File or directory name is empty'
    | PathMissingFile    // 'Path must contain a file' (extractPathInfo)

  /** The directory part and the file name of a full path. */
  datatype PathInfo = PathInfo(filename: string, path: string)

  /** The characters JavaScript's `String.prototype.trim` removes: the
      ECMAScript WhiteSpace and LineTerminator code points. */
  predicate IsTrimmable(c: char) {
    || c == '\t' || c == '\n' || c == '\U{000B}' || c == '\U{000C}' || c == '\r'
    || c == ' ' || c == '\U{00A0}' || c == '\U{1680}'
    || ('\U{2000}' <= c <= '\U{200A}')
    || c == '\U{2028}' || c == '\U{2029}' || c == '\U{202F}' || c == '\U{205F}'
    || c == '\U{3000}' || c == '\U{FEFF}'
  }

  /** `s` without its leading trimmable characters: a suffix of `s`. */
  function TrimStart(s: string): (r: string)
    ensures |r| <= |s| && r == s[|s| - |r|..]
    ensures |r| > 0 ==> !IsTrimmable(r[0])
    ensures |s| > 0 && IsTrimmable(s[0]) ==> |r| < |s|
  {
    if |s| > 0 && IsTrimmable(s[0]) then TrimStart(s[1..]) else s
  }

  /** `s` without its trailing trimmable characters: a prefix of `s`. */
  function TrimEnd(s: string): (r: string)
    ensures |r| <= |s| && r == s[..|r|]
    ensures |r| > 0 ==> !IsTrimmable(r[|r| - 1])
    ensures |s| > 0 && IsTrimmable(s[|s| - 1]) ==> |r| < |s|
  {
    if |s| > 0 && IsTrimmable(s[|s| - 1]) then TrimEnd(s[..|s| - 1]) else s
  }

  /** JavaScript's `trim`. */
  function Trim(s: string): string {
    TrimEnd(TrimStart(s))
  }

  /** Trimming leaves the length unchanged exactly when neither end of the
      string is a trimmable character. */
  lemma TrimKeepsLength(s: string)
    ensures |Trim(s)| == |s| <==> |s| == 0 || (!IsTrimmable(s[0]) && !IsTrimmable(s[|s| - 1]))
  {
    if |s| > 0 && !IsTrimmable(s[0]) {
      assert TrimStart(s) == s;
    }
  }

  /** JavaScript's `split('/')`: the maximal slash-free pieces between
      slashes; the empty string gives one empty piece. */
  function Split(s: string): (parts: seq<string>)
    ensures |parts| >= 1
    ensures forall i :: 0 <= i < |parts| ==> '/' !in parts[i]
    ensures |s| > 0 && s[0] == '/' ==> |parts| >= 2
  {
    if |s| == 0 then [""]
    else
      var rest := Split(s[1..]);
      if s[0] == '/' then [""] + rest
      else [[s[0]] + rest[0]] + rest[1..]
  }

  /** JavaScript's `join('/')`; the empty array joins to the empty string. */
  function Join(parts: seq<string>): string {
    if |parts| == 0 then ""
    else if |parts| == 1 then parts[0]
    else parts[0] + "/" + Join(parts[1..])
  }

  /** The characters after the last slash of `s` (all of `s` if it has none). */
  function LastSegment(s: string): (r: string)
    ensures '/' !in r
    ensures |r| <= |s| && r == s[|s| - |r|..]
  {
    if |s| == 0 || s[|s| - 1] == '/' then "" else LastSegment(s[..|s| - 1]) + [s[|s| - 1]]
  }

  /** The characters before the last slash of `s` (empty if it has none). */
  function DirPrefix(s: string): (r: string)
    ensures |r| <= |s| && r == s[..|r|]
  {
    if |s| == 0 then ""
    else if s[|s| - 1] == '/' then s[..|s| - 1]
    else DirPrefix(s[..|s| - 1])
  }

  /** A full path as `assertFullPathWithName` accepts it, stated on characters:
      it starts with a slash, and its last character is neither a slash nor
      trimmable. Interior empty segments (`//`) are allowed. */
  predicate IsValidFullPath(s: string) {
    |s| >= 2 && s[0] == '/' && s[|s| - 1] != '/' && !IsTrimmable(s[|s| - 1])
  }

  /** No two slashes in a row: every segment after the leading slash is non-empty. */
  predicate HasNoEmptySegment(s: string) {
    forall i :: 0 < i < |s| ==> !(s[i - 1] == '/' && s[i] == '/')
  }

  /** `assertFullPathWithName`: the checks in source order, first failure wins.
      It accepts exactly the paths of `IsValidFullPath`, and the 'at least one
      file or directory name' check never fires, because splitting a path
      that starts with a slash always gives at least two pieces. */
  function ValidateFullPath(value: string): (r: Outcome<PathError>)
    ensures r == Pass <==> IsValidFullPath(value)
    ensures r != Fail(PathNoName)
  {
    if |value| == 0 then Fail(PathEmpty)
    else if |Trim(value)| != |value| then TrimKeepsLength(value); Fail(PathTruncatable)
    else if value[0] != '/' then TrimKeepsLength(value); Fail(PathNotAbsolute)
    else
      TrimKeepsLength(value);
      SplitLast(value);
      LastSegmentEmpty(value);
      var exploded := Split(value);
      if |exploded| < 2 then Fail(PathNoName)
      else
        var rest := exploded[1..];       // exploded.shift()
        var name := rest[|rest| - 1];    // exploded.pop()
        if name == "" then Fail(NameEmpty) else Pass
  }

  /** `extractPathInfo`: validate, then the last piece of the split is the
      file name and the rest, joined back, is the directory (`/` if empty).
      Decomposition succeeds exactly on valid paths, the name is the text
      after the last slash and the directory the text before it. */
  function ExtractPathInfo(fullPath: string): (r: Result<PathInfo, PathError>)
    ensures r.Success? <==> IsValidFullPath(fullPath)
    ensures r.Failure? ==> ValidateFullPath(fullPath) == Fail(r.error)
    ensures r.Success? ==>
      && r.value.filename == LastSegment(fullPath)
      && r.value.path == (if DirPrefix(fullPath) == "" then "/" else DirPrefix(fullPath))
  {
    match ValidateFullPath(fullPath)
    case Fail(e) => Failure(e)
    case Pass =>
      SplitLast(fullPath);
      LastSegmentEmpty(fullPath);
      var exploded := Split(fullPath);
      var filename := exploded[|exploded| - 1];
      if filename == "" then Failure(PathMissingFile)
      else
        var path := Join(exploded[..|exploded| - 1]);
        Success(PathInfo(filename, if path != "" then path else "/"))
  }

  /** Rebuilds a full path from its decomposition. */
  function Recompose(info: PathInfo): string {
    if info.path == "/" then "/" + info.filename else info.path + "/" + info.filename
  }

  // ---------------------------------------------------------------------
  // Split and join

  lemma {:induction false} JoinSplit(s: string)
    ensures Join(Split(s)) == s
    decreases |s|
  {
    if |s| > 0 {
      var rest := Split(s[1..]);
      JoinSplit(s[1..]);
      if s[0] == '/' {
        assert Split(s) == [""] + rest;
        assert Split(s)[1..] == rest;
        assert Join(Split(s)) == "" + "/" + Join(rest);
      } else {
        var parts := [[s[0]] + rest[0]] + rest[1..];
        assert Split(s) == parts;
        if |rest| == 1 {
          assert Join(parts) == [s[0]] + rest[0];
        } else {
          assert parts[1..] == rest[1..];
          assert Join(rest) == rest[0] + "/" + Join(rest[1..]);
          assert Join(parts) == [s[0]] + rest[0] + "/" + Join(rest[1..]);
        }
        assert s == [s[0]] + s[1..];
      }
    }
  }

  lemma {:induction false} JoinSnoc(xs: seq<string>, y: string)
    requires |xs| >= 1
    ensures Join(xs + [y]) == Join(xs) + "/" + y
    decreases |xs|
  {
    if |xs| == 1 {
      assert (xs + [y])[1..] == [y];
    } else {
      assert (xs + [y])[1..] == xs[1..] + [y];
      JoinSnoc(xs[1..], y);
    }
  }

  /** Removing the last character of a slash-free string keeps it slash-free. */
  lemma NoSlashPrefix(b: string)
    requires '/' !in b && |b| > 0
    ensures '/' !in b[..|b| - 1] && b[|b| - 1] != '/'
  {
    assert b[|b| - 1] in b;
  }

  /** Appending a slash and a slash-free name makes that name the last segment. */
  lemma {:induction false} LastSegmentAppend(a: string, b: string)
    requires '/' !in b
    ensures LastSegment(a + "/" + b) == b
    decreases |b|
  {
    var s := a + "/" + b;
    if |b| > 0 {
      NoSlashPrefix(b);
      var b' := b[..|b| - 1];
      assert s[..|s| - 1] == a + "/" + b';
      LastSegmentAppend(a, b');
      assert b == b' + [b[|b| - 1]];
    }
  }

  /** Appending a slash and a slash-free name makes what came before the
      directory prefix. */
  lemma {:induction false} DirPrefixAppend(a: string, b: string)
    requires '/' !in b
    ensures DirPrefix(a + "/" + b) == a
    decreases |b|
  {
    var s := a + "/" + b;
    if |b| > 0 {
      NoSlashPrefix(b);
      var b' := b[..|b| - 1];
      assert s[..|s| - 1] == a + "/" + b';
      DirPrefixAppend(a, b');
    } else {
      assert s[..|s| - 1] == a;
    }
  }

  /** The pieces of `split('/')`, read as last piece and the rest joined,
      are the last segment and the directory prefix of the string. */
  lemma SplitLast(s: string)
    requires |s| > 0 && s[0] == '/'
    ensures Split(s)[|Split(s)| - 1] == LastSegment(s)
    ensures Join(Split(s)[..|Split(s)| - 1]) == DirPrefix(s)
    ensures s == DirPrefix(s) + "/" + LastSegment(s)
  {
    var parts := Split(s);
    var init, last := parts[..|parts| - 1], parts[|parts| - 1];
    assert parts == init + [last];
    var a := Join(init);
    JoinSplit(s);
    JoinSnoc(init, last);
    assert s == a + "/" + last;

    LastSegmentAppend(a, last);
    DirPrefixAppend(a, last);
  }

  // ---------------------------------------------------------------------
  // Properties of the validator and the decomposition

  /** The last segment of a non-empty string is empty exactly when the
      string ends with a slash. */
  lemma LastSegmentEmpty(s: string)
    requires |s| > 0
    ensures LastSegment(s) == "" <==> s[|s| - 1] == '/'
  {
  }

  /** Every error of `assertFullPathWithName`, with the exact inputs that
      raise it; 'at least one file or directory name' is never raised. */
  lemma ValidateFullPathErrors(value: string)
    ensures ValidateFullPath(value) == Fail(PathEmpty) <==> |value| == 0
    ensures ValidateFullPath(value) == Fail(PathTruncatable)
        <==> |value| > 0 && (IsTrimmable(value[0]) || IsTrimmable(value[|value| - 1]))
    ensures ValidateFullPath(value) == Fail(PathNotAbsolute)
        <==> |value| > 0 && !IsTrimmable(value[0]) && !IsTrimmable(value[|value| - 1])
             && value[0] != '/'
    ensures ValidateFullPath(value) == Fail(NameEmpty)
        <==> |value| > 0 && !IsTrimmable(value[|value| - 1]) && value[0] == '/'
             && value[|value| - 1] == '/'
    ensures ValidateFullPath(value) != Fail(PathNoName)
    ensures ValidateFullPath(value) != Fail(PathMissingFile)
    ensures ValidateFullPath(value) == Pass <==> IsValidFullPath(value)
  {
    TrimKeepsLength(value);
    if |value| > 0 && value[0] == '/' {
      SplitLast(value);
      LastSegmentEmpty(value);
    }
  }

  /** For a valid path `extractPathInfo` succeeds; the file name is the
      non-empty, slash-free last segment; the directory is the text before
      the last slash, or `/` when that text is empty; and that text, a slash
      and the file name give back the full path. Invalid paths fail with
      the validator's error, so 'Path must contain a file' is never raised. */
  lemma ExtractPathInfoResult(fullPath: string)
    ensures ExtractPathInfo(fullPath).Success? <==> IsValidFullPath(fullPath)
    ensures !IsValidFullPath(fullPath) ==>
      ExtractPathInfo(fullPath) == Failure(ValidateFullPath(fullPath).error)
    ensures IsValidFullPath(fullPath) ==>
      var info := ExtractPathInfo(fullPath).value;
      && info.filename == LastSegment(fullPath)
      && info.filename != "" && '/' !in info.filename
      && info.path == (if DirPrefix(fullPath) == "" then "/" else DirPrefix(fullPath))
      && fullPath == DirPrefix(fullPath) + "/" + info.filename
  {
    ValidateFullPathErrors(fullPath);
    if IsValidFullPath(fullPath) {
      SplitLast(fullPath);
      LastSegmentEmpty(fullPath);
    }
  }

  lemma SecondNotSlash(s: string)
    requires HasNoEmptySegment(s) && |s| >= 2 && s[0] == '/'
    ensures s[1] != '/'
  {
  }

  /** Recomposition gives back a valid path exactly when the text before its
      last slash is not a lone `/`: only paths of the form `//name` lose
      their doubled slash, because both decompose to directory `/`. */
  lemma RecomposeRoundTrip(fullPath: string)
    requires IsValidFullPath(fullPath)
    ensures ExtractPathInfo(fullPath).Success?
    ensures Recompose(ExtractPathInfo(fullPath).value) == fullPath <==> DirPrefix(fullPath) != "/"
  {
    ExtractPathInfoResult(fullPath);
    var p, n := DirPrefix(fullPath), LastSegment(fullPath);
    assert fullPath == p + "/" + n;
    if p == "/" {
      assert |Recompose(ExtractPathInfo(fullPath).value)| < |fullPath|;
    } else if p == "" {
      assert Recompose(ExtractPathInfo(fullPath).value) == "/" + n;
    } else {
      assert Recompose(ExtractPathInfo(fullPath).value) == p + "/" + n;
    }
  }

  /** In particular the round trip holds for every valid path without an
      empty segment. */
  lemma RecomposeWithoutEmptySegments(fullPath: string)
    requires IsValidFullPath(fullPath) && HasNoEmptySegment(fullPath)
    ensures ExtractPathInfo(fullPath).Success?
    ensures Recompose(ExtractPathInfo(fullPath).value) == fullPath
  {
    RecomposeRoundTrip(fullPath);
    ExtractPathInfoResult(fullPath);
    SecondNotSlash(fullPath);
    assert DirPrefix(fullPath) != "/";
  }

  /** The decomposition loses information on those paths: for any
      name, `//name` and `/name` are both accepted and both decompose to
      directory `/` and that name. */
  lemma DecompositionNotInjective(name: string)
    requires name != "" && '/' !in name && !IsTrimmable(name[|name| - 1])
    ensures "//" + name != "/" + name
    ensures ExtractPathInfo("//" + name) == ExtractPathInfo("/" + name) == Success(PathInfo(name, "/"))
  {
    var root, doubled := "/" + name, "//" + name;
    assert |root| < |doubled|;
    assert root == "" + "/" + name && doubled == "/" + "/" + name;
    assert IsValidFullPath(root) && IsValidFullPath(doubled);
    ExtractPathInfoResult(root);
    ExtractPathInfoResult(doubled);
    LastSegmentAppend("/", name);
    DirPrefixAppend("/", name);
    LastSegmentAppend("", name);
    DirPrefixAppend("", name);
  }
}
