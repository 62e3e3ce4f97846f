/** src/utils/multer.ts: the upload options. The stored file name is built from the form
    field, the clock (`Date.now()`, the parameter `now`) and the extension of the client's
    file name as Node's `path.extname` finds it; the filter admits only jpg and png
    mimetypes; the size limit is 5 MiB. */
module Multer {
  import opened Wrappers
  import opened Strings

  // ---------------------------------------------------------------- size limit

  /** `limits: { fileSize: 5 * 1024 * 1024 }`. */
  const FileSizeLimit: nat := 5 * 1024 * 1024

  /** Multer accepts a file of at most `fileSize` bytes. */
  function WithinLimit(size: nat): (ok: bool)
    ensures ok <==> size <= 5242880
  {
    size <= FileSizeLimit
  }

  // ---------------------------------------------------------------- fileFilter

  datatype FilterOutcome = Accept | Reject(error: Error, message: string)

  const FilterMessage: string := "Only \"jpg|png\" files are allowed!"

  /** `mimetype.match(/\/(jpg|png)$/)`: a match anywhere that ends the string. */
  predicate AllowedMimetype(mimetype: string)
  {
    EndsWith(mimetype, "/jpg") || EndsWith(mimetype, "/png")
  }

  /** `fileFilter`: `cb(null, true)`, or `cb(new BadRequestException(message))`. */
  function FileFilter(mimetype: string): (r: FilterOutcome)
    ensures r.Accept? <==> |mimetype| >= 4 && mimetype[|mimetype| - 4..] in {"/jpg", "/png"}
    ensures r.Reject? ==> r == Reject(BadRequest, "Only \"jpg|png\" files are allowed!")
  {
    if !AllowedMimetype(mimetype) then Reject(BadRequest, FilterMessage) else Accept
  }

  /** The filter is case-sensitive and literal: `image/jpeg` and `image/PNG` are refused. */
  lemma FilterExamples()
    ensures FileFilter("image/png") == Accept && FileFilter("image/jpg") == Accept
    ensures FileFilter("image/jpeg").Reject? && FileFilter("image/PNG").Reject?
    ensures FileFilter("image/png; x").Reject? && FileFilter("/png") == Accept
  {
    assert "image/png"[5..] == "/png";
    assert "image/jpg"[5..] == "/jpg";
    assert "image/jpeg"[6..] == "jpeg";
    assert "image/PNG"[5..] == "/PNG";
    assert "image/png; x"[8..] == "g; x";
  }

  // ---------------------------------------------------------------- path.extname

  /** The last index of `c` in `s`, if any. */
  function LastIndexOf(s: string, c: char): (r: Option<nat>)
    ensures r.None? <==> c !in s
    ensures r.Some? ==> r.value < |s| && s[r.value] == c && c !in s[r.value + 1..]
  {
    if s == [] then None
    else if s[|s| - 1] == c then
      assert s[|s|..] == [];
      Some(|s| - 1)
    else
      var r := LastIndexOf(s[..|s| - 1], c);
      assert s == s[..|s| - 1] + [s[|s| - 1]];
      if r.Some? then
        assert s[r.value + 1..] == s[..|s| - 1][r.value + 1..] + [s[|s| - 1]];
        r
      else r
  }

  /** The path without its trailing slashes. */
  function TrimSlashes(p: string): (r: string)
    ensures |r| <= |p| && r == p[..|r|]
    ensures r == [] || r[|r| - 1] != '/'
    ensures forall k :: |r| <= k < |p| ==> p[k] == '/'
  {
    if p != [] && p[|p| - 1] == '/' then TrimSlashes(p[..|p| - 1]) else p
  }

  /** The last portion of the path: what follows its last slash, trailing slashes aside. */
  function BaseName(p: string): (base: string)
    ensures '/' !in base
    ensures EndsWith(TrimSlashes(p), base)
    ensures var t := TrimSlashes(p); |base| == |t| || t[|t| - |base| - 1] == '/'
  {
    var t := TrimSlashes(p);
    match LastIndexOf(t, '/')
    case None => t
    case Some(i) => t[i + 1..]
  }

  /** `path.extname` (POSIX): from the last '.' of the last portion to its end, except
      that a portion with no '.', with its only '.' leading it (".bashrc"), or equal to
      ".." has no extension. */
  function ExtName(p: string): (ext: string)
    ensures ext == [] || (ext[0] == '.' && '.' !in ext[1..] && '/' !in ext)
    ensures EndsWith(BaseName(p), ext)
  {
    var base := BaseName(p);
    match LastIndexOf(base, '.')
    case None => ""
    case Some(d) =>
      if d == 0 || base == ".." then ""
      else
        SuffixFrom(base, d);
        base[d..]
  }

  lemma SuffixFrom(base: string, d: nat)
    requires d < |base| && base[d] == '.' && '.' !in base[d + 1..] && '/' !in base
    ensures var ext := base[d..]; ext[0] == '.' && '.' !in ext[1..] && '/' !in ext && EndsWith(base, ext)
  {
    var ext := base[d..];
    assert ext[1..] == base[d + 1..];
    assert forall x :: x in ext ==> x in base;
    assert base[|base| - |ext|..] == ext;
  }

  /** The extension ends the path, trailing slashes aside. */
  lemma ExtNameIsSuffix(p: string)
    ensures EndsWith(TrimSlashes(p), ExtName(p))
  {
    var t, base, ext := TrimSlashes(p), BaseName(p), ExtName(p);
    assert t[|t| - |ext|..] == t[|t| - |base|..][|base| - |ext|..];
  }

  /** The last occurrence is the one with none after it. */
  lemma LastIndexOfAt(s: string, c: char, i: nat)
    requires i < |s| && s[i] == c && c !in s[i + 1..]
    ensures LastIndexOf(s, c) == Some(i)
  {
    assert s[i] in s;
  }

  /** A name without slashes, not ending in one, is its own last portion. */
  lemma BaseNameOfName(name: string)
    requires name != [] && '/' !in name
    ensures BaseName(name) == name
  {
    assert name[|name| - 1] in name;
    assert TrimSlashes(name) == name;
  }

  /** A slash-free name whose last '.' is at `d > 0` has the extension from `d` on. */
  lemma ExtNameAt(name: string, d: nat)
    requires '/' !in name && d < |name| && 0 < d && name[d] == '.' && '.' !in name[d + 1..]
    requires name != ".."
    ensures ExtName(name) == name[d..]
  {
    BaseNameOfName(name);
    LastIndexOfAt(name, '.', d);
  }

  /** A file name `stem.ext`, with a non-empty stem and no slash, has the extension
      `.ext`: "photo.png" gives ".png", "archive.tar.gz" gives ".gz". */
  lemma ExtNameOfName(stem: string, ext: string)
    requires stem != [] && '/' !in stem && '/' !in ext && '.' !in ext
    requires stem != "." || ext != []
    ensures ExtName(stem + "." + ext) == "." + ext
  {
    var name := stem + "." + ext;
    assert '/' !in name by {
      forall k | 0 <= k < |name| ensures name[k] != '/' {
        if k < |stem| { assert name[k] == stem[k]; }
        else if k > |stem| { assert name[k] == ext[k - |stem| - 1]; }
      }
    }
    assert name[|stem|] == '.' && name[|stem| + 1..] == ext && name[|stem|..] == "." + ext;
    assert name != ".." by {
      assert |name| == |stem| + 1 + |ext| && name[0] == stem[0];
      assert |stem| == 1 ==> stem == [stem[0]];
    }
    ExtNameAt(name, |stem|);
  }

  /** A file name whose only dot leads it (".bashrc") has no extension. */
  lemma ExtNameOfDotfile(rest: string)
    requires '/' !in rest && '.' !in rest
    ensures ExtName("." + rest) == ""
  {
    var name := "." + rest;
    assert '/' !in name by {
      forall k | 0 <= k < |name| ensures name[k] != '/' {
        if k > 0 { assert name[k] == rest[k - 1]; }
      }
    }
    BaseNameOfName(name);
    assert name[1..] == rest;
    LastIndexOfAt(name, '.', 0);
  }

  // ---------------------------------------------------------------- filename

  /** `` `motor-${ fieldname }-${ stamp }${ ext }` ``, for any extension. */
  function StoredName(fieldname: string, now: nat, ext: string): (name: string)
    ensures StartsWith(name, "motor-" + fieldname + "-")
    ensures EndsWith(name, ext)
    ensures |name| == 7 + |fieldname| + |Decimal(now)| + |ext|
  {
    var prefix, digits := "motor-" + fieldname + "-", Decimal(now);
    var name := prefix + (digits + ext);
    assert name[..|prefix|] == prefix;
    assert name[|name| - |ext|..] == (digits + ext)[|digits|..];
    name
  }

  /** `` `motor-${ fieldname }-${ Date.now() }${ extname(originalname) }` ``. */
  function Filename(fieldname: string, now: nat, originalname: string): (name: string)
    ensures StartsWith(name, "motor-" + fieldname + "-")
    ensures EndsWith(name, ExtName(originalname))
    ensures |name| == 7 + |fieldname| + |Decimal(now)| + |ExtName(originalname)|
  {
    StoredName(fieldname, now, ExtName(originalname))
  }

  /** The part of a stored name between the field prefix and the extension is the
      decimal timestamp, whatever the extension. */
  lemma StoredNameTimestamp(fieldname: string, now: nat, ext: string)
    ensures
      var name := StoredName(fieldname, now, ext);
      ParseDecimal(name[7 + |fieldname|..7 + |fieldname| + |Decimal(now)|]) == now
  {
    var prefix, digits := "motor-" + fieldname + "-", Decimal(now);
    var name := prefix + (digits + ext);
    assert StoredName(fieldname, now, ext) == name;
    Middle(prefix, digits, ext);
    assert name[|prefix|..|prefix| + |digits|] == digits;
    ParseDecimalOfDecimal(now);
  }

  lemma Middle(a: string, b: string, c: string)
    ensures (a + (b + c))[|a|..|a| + |b|] == b
  {
  }

  /** Two uploads of the same file through the same field at different milliseconds
      never share a name. */
  lemma FilenameInjective(fieldname: string, originalname: string, t1: nat, t2: nat)
    requires Filename(fieldname, t1, originalname) == Filename(fieldname, t2, originalname)
    ensures t1 == t2
  {
    StoredNameInjective(fieldname, ExtName(originalname), t1, t2);
  }

  lemma StoredNameInjective(fieldname: string, ext: string, t1: nat, t2: nat)
    requires StoredName(fieldname, t1, ext) == StoredName(fieldname, t2, ext)
    ensures t1 == t2
  {
    var prefix := "motor-" + fieldname + "-";
    var d1, d2 := Decimal(t1), Decimal(t2);
    assert StoredName(fieldname, t1, ext) == prefix + (d1 + ext);
    assert StoredName(fieldname, t2, ext) == prefix + (d2 + ext);
    assert |d1| == |d2|;
    Middle(prefix, d1, ext);
    Middle(prefix, d2, ext);
    assert d1 == d2;
    DecimalInjective(t1, t2);
  }
}
