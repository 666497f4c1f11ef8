/**
 * The upload configuration: the MIME filter and the name under which an
 * uploaded file is stored. The unique suffix (clock and random number) is a
 * parameter; `extname` is Node's POSIX path.extname.
 */
module MulterConfig {
  import opened Wrappers
  import opened Domain

  const ALLOWED_MIMETYPES: seq<string> := ["image/jpeg", "image/png", "image/svg+xml", "image/webp"]
  const ONLY_IMAGES := "Only image files are allowed!"

  /** The fields of Express.Multer.File the configuration reads. */
  datatype UploadedFile = UploadedFile(fieldname: string, originalname: string, mimetype: string)

  /** The arguments imageFileFilter hands to multer's callback. */
  datatype FilterCallback = FilterCallback(error: Option<Error>, acceptFile: bool)

  /** imageFileFilter: `(BadRequest, false)` for a type outside the list, `(null, true)` otherwise. */
  function ImageFileFilter(file: UploadedFile): (c: FilterCallback)
    ensures c.acceptFile <==> file.mimetype in ALLOWED_MIMETYPES
    ensures !c.acceptFile ==> c.error == Some(BadRequest(ONLY_IMAGES))
    ensures c.acceptFile ==> c.error.None?
  {
    if file.mimetype !in ALLOWED_MIMETYPES then FilterCallback(Some(BadRequest(ONLY_IMAGES)), false)
    else FilterCallback(None, true)
  }

  /** Exactly JPEG, PNG, SVG and WebP pass; the test is exact, so neither "image/jpg" nor "IMAGE/PNG" does. */
  lemma AcceptedImageTypes(file: UploadedFile)
    ensures ImageFileFilter(file).acceptFile <==>
      file.mimetype == "image/jpeg" || file.mimetype == "image/png" ||
      file.mimetype == "image/svg+xml" || file.mimetype == "image/webp"
    ensures file.mimetype == "image/jpg" || file.mimetype == "IMAGE/PNG" ==> !ImageFileFilter(file).acceptFile
  {
  }

  // ---------------------------------------------------------------------------
  // path.extname
  // ---------------------------------------------------------------------------

  /** No character of `s` is `c`. */
  predicate Lacks(s: string, c: char) {
    forall k | 0 <= k < |s| :: s[k] != c
  }

  /** The index of the last `c` in `s`. */
  function LastIndexOf(s: string, c: char): (r: Option<nat>)
    ensures r.None? <==> Lacks(s, c)
    ensures r.Some? ==> r.value < |s| && s[r.value] == c && forall k | r.value < k < |s| :: s[k] != c
  {
    if s == [] then None
    else if s[|s| - 1] == c then Some(|s| - 1)
    else
      var r := LastIndexOf(s[..|s| - 1], c);
      assert forall k | 0 <= k < |s| - 1 :: s[..|s| - 1][k] == s[k];
      r
  }

  /** Where a suffix starting with `c` and free of it afterwards begins, there is the last `c`. */
  lemma LastIndexOfSuffix(a: string, e: string, c: char)
    requires e != [] && e[0] == c && Lacks(e[1..], c)
    ensures LastIndexOf(a + e, c) == Some(|a|)
  {
    var s := a + e;
    assert s[|a|] == c;
    forall k | |a| < k < |s| ensures s[k] != c {
      assert s[k] == e[1..][k - |a| - 1];
    }
  }

  function TrimTrailingSlashes(s: string): (r: string)
    ensures s == [] || s[|s| - 1] != '/' ==> r == s
  {
    if s != [] && s[|s| - 1] == '/' then TrimTrailingSlashes(s[..|s| - 1]) else s
  }

  /** The last path segment, trailing slashes ignored. */
  function Basename(path: string): (base: string)
    ensures Lacks(path, '/') ==> base == path
  {
    var t := TrimTrailingSlashes(path);
    match LastIndexOf(t, '/')
    case None => t
    case Some(i) => t[i + 1..]
  }

  /**
   * extname: from the last '.' of the last segment to its end; nothing when
   * the segment has no dot, when that dot is its first character (a dot-file),
   * or when the segment is "..".
   */
  function ExtName(path: string): (ext: string)
    ensures ext == "" || (ext[0] == '.' && Lacks(ext[1..], '.'))
  {
    var base := Basename(path);
    match LastIndexOf(base, '.')
    case None => ""
    case Some(i) =>
      if i == 0 || base == ".." then ""
      else
        assert forall k | 0 <= k < |base[i..][1..]| :: base[i..][1..][k] == base[i + 1 + k];
        base[i..]
  }

  /** For a name without slashes whose last dot is not its first character, the extension is what follows that dot on. */
  lemma ExtNameOfPlain(a: string, e: string)
    requires Lacks(a + e, '/') && a != [] && a + e != ".."
    requires e != [] && e[0] == '.' && Lacks(e[1..], '.')
    ensures ExtName(a + e) == e
  {
    LastIndexOfSuffix(a, e, '.');
    assert (a + e)[|a|..] == e;
  }

  /** A plain name with one extension: the extension is what follows its dot. */
  lemma ExtNameOfPlainName(name: string, ext: string)
    requires name != "" && Lacks(name, '.') && Lacks(name, '/') && Lacks(ext, '.') && Lacks(ext, '/')
    ensures ExtName(name + "." + ext) == "." + ext
  {
    var e := "." + ext;
    assert e[1..] == ext;
    assert name + "." + ext == name + e;
    forall k | 0 <= k < |name + e| ensures (name + e)[k] != '/' {
      if k >= |name| + 1 {
        assert (name + e)[k] == ext[k - |name| - 1];
      }
    }
    assert (name + e)[0] == name[0] != '.';
    ExtNameOfPlain(name, e);
  }

  /** A name without a dot has no extension. */
  lemma NoDotNoExtension(path: string)
    requires Lacks(path, '.') && Lacks(path, '/')
    ensures ExtName(path) == ""
  {
  }

  /** A dot-file (a single leading dot) has no extension. */
  lemma DotFileHasNoExtension(name: string)
    requires name != [] && name[0] == '.' && Lacks(name[1..], '.') && Lacks(name, '/')
    ensures ExtName(name) == ""
  {
    LastIndexOfSuffix([], name, '.');
    assert [] + name == name;
  }

  // ---------------------------------------------------------------------------
  // generateFileName
  // ---------------------------------------------------------------------------

  /** generateFileName: `fieldname-suffix` followed by the original name's extension. */
  function GenerateFileName(file: UploadedFile, uniqueSuffix: string): (name: string)
    ensures |name| == |file.fieldname| + 1 + |uniqueSuffix| + |ExtName(file.originalname)|
    ensures name[..|file.fieldname| + 1] == file.fieldname + "-"
    ensures name[|name| - |ExtName(file.originalname)|..] == ExtName(file.originalname)
  {
    var name := file.fieldname + "-" + uniqueSuffix + ExtName(file.originalname);
    assert name[..|file.fieldname| + 1] == file.fieldname + "-";
    name
  }

  /**
   * The stored file keeps the uploaded extension: for a field name and a
   * suffix without slashes (and a suffix without dots), extname of the
   * generated name is extname of the original.
   */
  lemma StoredNameKeepsExtension(file: UploadedFile, uniqueSuffix: string)
    requires Lacks(file.fieldname, '/') && Lacks(uniqueSuffix, '/') && Lacks(uniqueSuffix, '.')
    requires Lacks(file.originalname, '/') && ExtName(file.originalname) != ""
    ensures ExtName(GenerateFileName(file, uniqueSuffix)) == ExtName(file.originalname)
  {
    var e := ExtName(file.originalname);
    var f := file.fieldname;
    var a := f + "-" + uniqueSuffix;
    var s := GenerateFileName(file, uniqueSuffix);
    assert s == a + e;
    assert Lacks(e, '/') by {
      assert e == file.originalname[|file.originalname| - |e|..] by {
        var base := Basename(file.originalname);
        assert base == file.originalname;
      }
      forall k | 0 <= k < |e| ensures e[k] != '/' {
        assert e[k] == file.originalname[|file.originalname| - |e| + k];
      }
    }
    forall k | 0 <= k < |s| ensures s[k] != '/' {
      if k < |f| {
        assert s[k] == f[k];
      } else if k == |f| {
        assert s[k] == '-';
      } else if k < |a| {
        assert s[k] == uniqueSuffix[k - |f| - 1];
      } else {
        assert s[k] == e[k - |a|];
      }
    }
    assert s[|f|] == '-';
    assert s != "..";
    ExtNameOfPlain(a, e);
  }
}
