/** File names and manifest lines (util/dataset.py:15-21, 44-49): the image
    extension test, and turning one line of the list file into an
    (image path, label path) pair. */
module Paths {
  import opened Common

  /** One manifest entry; identity is the pair of paths. */
  datatype ImageRecord = ImageRecord(imagePath: string, labelPath: string)

  const ImageExtensions: seq<string> := [".jpg", ".jpeg", ".png", ".ppm", ".bmp", ".pgm"]

  function LowerChar(ch: char): char
  {
    if 'A' <= ch <= 'Z' then (ch as int - 'A' as int + 'a' as int) as char else ch
  }

  /** `str.lower()` on the ASCII letters; other characters are kept. */
  function Lower(s: string): (r: string)
    ensures |r| == |s|
    ensures forall k :: 0 <= k < |s| ==> r[k] == LowerChar(s[k])
  {
    seq(|s|, k requires 0 <= k < |s| => LowerChar(s[k]))
  }

  predicate EndsWith(s: string, suffix: string)
  {
    |suffix| <= |s| && s[|s| - |suffix|..] == suffix
  }

  /** `is_image_file`: the lower-cased name ends with a known extension. */
  predicate IsImageFile(filename: string)
  {
    exists ext :: ext in ImageExtensions && EndsWith(Lower(filename), ext)
  }

  /** The test ignores case: a name and its lower-cased form agree, and
      every image name is at least as long as the shortest extension. */
  lemma IsImageFileIgnoresCase(filename: string)
    ensures IsImageFile(Lower(filename)) <==> IsImageFile(filename)
    ensures IsImageFile(filename) ==> |filename| >= 4
  {
    assert Lower(Lower(filename)) == Lower(filename);
    if IsImageFile(filename) {
      var ext :| ext in ImageExtensions && EndsWith(Lower(filename), ext);
      assert |ext| >= 4;
    }
  }

  /** Appending an extension in any letter case gives an image name, and a
      name whose last four characters, lower-cased, are ".txt" is not one. */
  lemma ImageFileExamples(stem: string)
    ensures IsImageFile(stem + ".PNG")
    ensures IsImageFile(stem + ".JpEg")
    ensures !IsImageFile(stem + ".txt")
  {
    var a := stem + ".PNG";
    assert Lower(a)[|a| - 4..] == ".png";
    assert ".png" in ImageExtensions;
    var b := stem + ".JpEg";
    assert Lower(b)[|b| - 5..] == ".jpeg";
    assert ".jpeg" in ImageExtensions;
    var c := stem + ".txt";
    assert Lower(c)[|c| - 1] == 't';
    forall ext | ext in ImageExtensions ensures !EndsWith(Lower(c), ext) {
      EndsWithLast(Lower(c), ext);
    }
  }

  lemma EndsWithLast(s: string, suffix: string)
    ensures EndsWith(s, suffix) && suffix != [] ==> s[|s| - 1] == suffix[|suffix| - 1]
  {
    if EndsWith(s, suffix) && suffix != [] {
      assert s[|s| - |suffix|..][|suffix| - 1] == s[|s| - 1];
    }
  }

  /** The characters `str.strip()` removes (Python's whitespace). */
  predicate IsSpace(ch: char)
  {
    || ch == ' ' || '\t' <= ch <= '\r' || '\U{1C}' <= ch <= '\U{1F}'
    || ch == '\U{85}' || ch == '\U{A0}' || ch == '\U{1680}'
    || '\U{2000}' <= ch <= '\U{200A}' || ch == '\U{2028}' || ch == '\U{2029}'
    || ch == '\U{202F}' || ch == '\U{205F}' || ch == '\U{3000}'
  }

  predicate AllSpace(s: string)
  {
    forall k :: 0 <= k < |s| ==> IsSpace(s[k])
  }

  lemma AllSpaceConcat(a: string, b: string)
    requires AllSpace(a) && AllSpace(b)
    ensures AllSpace(a + b)
  {
    forall k | 0 <= k < |a + b| ensures IsSpace((a + b)[k]) {
      if k < |a| { assert (a + b)[k] == a[k]; } else { assert (a + b)[k] == b[k - |a|]; }
    }
  }

  /** A leading whitespace character joins the whitespace cut before `r`. */
  lemma SpaceThenRest(s: string, r: string)
    requires s != [] && IsSpace(s[0])
    requires |r| <= |s| - 1 && r == s[1..][|s| - 1 - |r|..] && AllSpace(s[1..][..|s| - 1 - |r|])
    ensures r == s[|s| - |r|..] && AllSpace(s[..|s| - |r|])
  {
    assert s[..|s| - |r|] == [s[0]] + s[1..][..|s| - 1 - |r|];
    AllSpaceConcat([s[0]], s[1..][..|s| - 1 - |r|]);
  }

  function StripLeft(s: string): (r: string)
    ensures |r| <= |s| && r == s[|s| - |r|..]
    ensures AllSpace(s[..|s| - |r|])
    ensures r != [] ==> !IsSpace(r[0])
  {
    if s != [] && IsSpace(s[0]) then
      var r := StripLeft(s[1..]);
      SpaceThenRest(s, r);
      r
    else s
  }

  function StripRight(s: string): (r: string)
    ensures |r| <= |s| && r == s[..|r|]
    ensures AllSpace(s[|r|..])
    ensures r != [] ==> !IsSpace(r[|r| - 1])
  {
    if s != [] && IsSpace(s[|s| - 1]) then
      var r := StripRight(s[..|s| - 1]);
      assert s[|r|..] == s[..|s| - 1][|r|..] + [s[|s| - 1]];
      AllSpaceConcat(s[..|s| - 1][|r|..], [s[|s| - 1]]);
      r
    else s
  }

  /** `str.strip()`. */
  function Strip(s: string): (r: string)
    ensures |r| <= |s|
    ensures r != [] ==> !IsSpace(r[0]) && !IsSpace(r[|r| - 1])
  {
    StripRight(StripLeft(s))
  }

  /** The stripped string is a slice of the original with nothing but
      whitespace on either side of it. */
  lemma StripShape(s: string)
    ensures exists i, j :: 0 <= i <= j <= |s| && Strip(s) == s[i..j] && AllSpace(s[..i]) && AllSpace(s[j..])
  {
    var l := StripLeft(s);
    var r := StripRight(l);
    var i := |s| - |l|;
    assert r == s[i..i + |r|];
    assert s[i + |r|..] == l[|r|..];
  }

  /** The pieces joined back with the separator. */
  function JoinWith(parts: seq<string>, sep: char): string
    requires |parts| > 0
  {
    if |parts| == 1 then parts[0] else parts[0] + [sep] + JoinWith(parts[1..], sep)
  }

  /** `str.split(sep)` with an explicit separator: every occurrence splits,
      so consecutive separators give empty pieces. The pieces never contain
      the separator and joining them back gives the original string. */
  function SplitOn(s: string, sep: char): (parts: seq<string>)
    ensures |parts| > 0
  {
    if sep !in s then [s]
    else
      var k := IndexOf(s, sep);
      [s[..k]] + SplitOn(s[k + 1..], sep)
  }

  /** A string splits into more than one piece exactly when it contains the
      separator. */
  lemma SplitOnSeveral(s: string, sep: char)
    ensures |SplitOn(s, sep)| > 1 <==> sep in s
  {
  }

  /** The pieces never contain the separator and joining them back gives
      the original string. */
  lemma {:induction false} SplitOnJoin(s: string, sep: char)
    ensures forall k :: 0 <= k < |SplitOn(s, sep)| ==> sep !in SplitOn(s, sep)[k]
    ensures JoinWith(SplitOn(s, sep), sep) == s
  {
    var parts := SplitOn(s, sep);
    if sep in s {
      var k := IndexOf(s, sep);
      var tail := SplitOn(s[k + 1..], sep);
      SplitOnJoin(s[k + 1..], sep);
      assert parts == [s[..k]] + tail;
      assert parts[1..] == tail;
      assert sep !in s[..k];
      assert s == s[..k] + [sep] + s[k + 1..];
      forall i | 0 <= i < |parts| ensures sep !in parts[i] {
        if i > 0 { assert parts[i] == tail[i - 1]; }
      }
    }
  }

  /** The first separator of `a + [sep] + rest` is the one after `a` when
      `a` has none, so splitting peels `a` off. */
  lemma SplitOnCons(a: string, rest: string, sep: char)
    requires sep !in a
    ensures SplitOn(a + [sep] + rest, sep) == [a] + SplitOn(rest, sep)
  {
    var s := a + [sep] + rest;
    assert s[|a|] == sep;
    forall j | 0 <= j < |a| ensures s[j] != sep {
      assert s[j] == a[j];
    }
    assert IndexOf(s, sep) == |a|;
    assert s[..|a|] == a && s[|a| + 1..] == rest;
  }

  /** Splitting is determined by the join: any separator-free pieces that
      join to `s` are the pieces of `SplitOn(s)`. */
  lemma {:induction false} SplitOnUnique(parts: seq<string>, sep: char)
    requires |parts| > 0
    requires forall k :: 0 <= k < |parts| ==> sep !in parts[k]
    ensures SplitOn(JoinWith(parts, sep), sep) == parts
  {
    if |parts| > 1 {
      var tail := parts[1..];
      assert forall k :: 0 <= k < |tail| ==> tail[k] == parts[k + 1];
      SplitOnUnique(tail, sep);
      SplitOnCons(parts[0], JoinWith(tail, sep), sep);
      assert parts == [parts[0]] + tail;
    }
  }

  /** `os.path.join(root, p)`: an absolute `p` replaces the root; otherwise a
      '/' is inserted unless the root is empty or already ends with one. */
  function JoinPath(root: string, p: string): (r: string)
    ensures EndsWith(r, p)
    ensures (p != [] && p[0] == '/') ==> r == p
    ensures !(p != [] && p[0] == '/') ==>
      && |root| + |p| <= |r| <= |root| + |p| + 1
      && r[..|root|] == root
      && (root != [] ==> r[|r| - |p| - 1] == '/')
      && (r == root + p <==> root == [] || root[|root| - 1] == '/')
  {
    if p != [] && p[0] == '/' then p
    else if root == [] || root[|root| - 1] == '/' then root + p
    else root + "/" + p
  }

  /** Why a manifest line cannot be used: it has no second field
      (`line_split[1]` raises IndexError). */
  datatype LineError = MissingLabelPath(line: string)

  /** One manifest line (util/dataset.py:45-49): strip it, split it on single
      spaces, and join the first two fields to the data root. Fields after the
      second are ignored. */
  function ParseLine(root: string, line: string): (r: Result<ImageRecord, LineError>)
    ensures r.Err? <==> ' ' !in Strip(line)
    ensures r.Err? ==> r.error.line == line
  {
    SplitOnSeveral(Strip(line), ' ');
    var fields := SplitOn(Strip(line), ' ');
    if |fields| < 2 then Err(MissingLabelPath(line))
    else Ok(ImageRecord(JoinPath(root, fields[0]), JoinPath(root, fields[1])))
  }

  /** A line whose stripped form starts with two non-empty, space-free
      fields separated by a single space parses to those two fields joined
      to the root, relative or absolute. Any further fields (`rest`, after
      another space) are ignored; inner tabs stay in the fields. */
  lemma ParseWellFormedLine(root: string, img: string, lbl: string, rest: string, pre: string, post: string)
    requires img != [] && lbl != [] && ' ' !in img && ' ' !in lbl
    requires !IsSpace(img[0])
    requires rest == [] ==> !IsSpace(lbl[|lbl| - 1])
    requires rest != [] ==> rest[0] == ' ' && !IsSpace(rest[|rest| - 1])
    requires AllSpace(pre) && AllSpace(post)
    ensures ParseLine(root, pre + img + " " + lbl + rest + post) ==
      Ok(ImageRecord(JoinPath(root, img), JoinPath(root, lbl)))
  {
    var body := img + " " + lbl + rest;
    assert pre + img + " " + lbl + rest + post == pre + body + post;
    assert body[0] == img[0];
    assert body[|body| - 1] == if rest == [] then lbl[|lbl| - 1] else rest[|rest| - 1];
    StripExact(pre, body, post);
    SplitFirstTwo(img, lbl, rest);
  }

  /** The first two pieces of `img lbl rest` are `img` and `lbl`. */
  lemma SplitFirstTwo(img: string, lbl: string, rest: string)
    requires ' ' !in img && ' ' !in lbl
    requires rest != [] ==> rest[0] == ' '
    ensures var parts := SplitOn(img + " " + lbl + rest, ' ');
      |parts| >= 2 && parts[0] == img && parts[1] == lbl
  {
    var t := lbl + rest;
    assert img + " " + lbl + rest == img + [' '] + t;
    SplitOnCons(img, t, ' ');
    SplitFirstPiece(lbl, rest);
  }

  /** The first piece of `lbl rest` is `lbl`. */
  lemma SplitFirstPiece(lbl: string, rest: string)
    requires ' ' !in lbl
    requires rest != [] ==> rest[0] == ' '
    ensures SplitOn(lbl + rest, ' ')[0] == lbl
  {
    if rest == [] {
      assert lbl + rest == lbl;
    } else {
      assert lbl + rest == lbl + [' '] + rest[1..];
      SplitOnCons(lbl, rest[1..], ' ');
    }
  }

  /** Stripping whitespace around a body that neither starts nor ends with
      whitespace returns the body. */
  lemma StripExact(pre: string, body: string, post: string)
    requires body != [] && !IsSpace(body[0]) && !IsSpace(body[|body| - 1])
    requires AllSpace(pre) && AllSpace(post)
    ensures Strip(pre + body + post) == body
  {
    var s := pre + body + post;
    StripLeftExact(pre, body + post);
    assert s == pre + (body + post);
    StripRightExact(body, post);
  }

  lemma {:induction false} StripLeftExact(pre: string, rest: string)
    requires rest != [] && !IsSpace(rest[0]) && AllSpace(pre)
    ensures StripLeft(pre + rest) == rest
  {
    if pre != [] {
      assert (pre + rest)[1..] == pre[1..] + rest;
      StripLeftExact(pre[1..], rest);
    }
  }

  lemma {:induction false} StripRightExact(body: string, post: string)
    requires body != [] && !IsSpace(body[|body| - 1]) && AllSpace(post)
    ensures StripRight(body + post) == body
  {
    if post != [] {
      assert (body + post)[..|body + post| - 1] == body + post[..|post| - 1];
      StripRightExact(body, post[..|post| - 1]);
    } else {
      assert body + post == body;
    }
  }
}
