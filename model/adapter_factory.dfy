/**
 * Routing of an ingestion source to the adapter that extracts its text:
 * first by the declared source type, then, for a `file:` reference, by the
 * extension of the file, and otherwise to the plain-text adapter.
 */
module AdapterFactory {
  import opened Common
  import N = IngestNormalizer

  /** The two physical adapters. */
  datatype Adapter = PdfAdapter | SimpleTextAdapter

  /** Source types routed to the plain-text adapter whatever the reference. */
  const TextTypes: seq<string> := ["user_text", "paper_abstract", "api_text"]

  /** `s.rfind(c)`: the index of the last `c`, or -1. */
  function RFindChar(s: string, c: char): (r: int)
    ensures -1 <= r < |s|
    ensures r >= 0 ==> s[r] == c
    ensures forall i :: r < i < |s| ==> s[i] != c
  {
    if s == [] then -1
    else if s[|s| - 1] == c then |s| - 1
    else RFindChar(s[..|s| - 1], c)
  }

  /**
   * `os.path.splitext(p)[1]` for POSIX paths: from the last dot of the last
   * path component, unless that component is only dots up to it.
   */
  function Extension(p: string): (r: string)
    ensures r == [] || (r[0] == '.' && '.' !in r[1..] && '/' !in r)
  {
    var sep := RFindChar(p, '/');
    var dot := RFindChar(p, '.');
    if dot > sep && exists j :: sep + 1 <= j < dot && p[j] != '.' then
      assert forall i :: dot < i < |p| ==> p[i] != '.' && p[i] != '/';
      p[dot..]
    else []
  }

  /** The extension of a `file:` reference, lowercased and without its dot. */
  function FileExtension(sourceRef: string): string
  {
    N.Replace(Lower(Extension(N.Replace(sourceRef, "file:", ""))), ".", "")
  }

  /** `get_adapter_for_source` */
  function GetAdapter(sourceType: string, sourceRef: string): (r: Adapter)
    ensures Lower(sourceType) == "pdf_text" ==> r == PdfAdapter
    ensures Lower(sourceType) in TextTypes ==> r == SimpleTextAdapter
    ensures !Contains(sourceRef, "file:") && Lower(sourceType) != "pdf_text" ==> r == SimpleTextAdapter
    ensures r == PdfAdapter <==>
      Lower(sourceType) == "pdf_text" || (Lower(sourceType) !in TextTypes && Contains(sourceRef, "file:") && FileExtension(sourceRef) == "pdf")
  {
    var t := Lower(sourceType);
    if t == "pdf_text" then PdfAdapter
    else if t in TextTypes then SimpleTextAdapter
    else if Contains(sourceRef, "file:") then
      var ext := FileExtension(sourceRef);
      if ext == "pdf" then PdfAdapter
      else if ext == "txt" then SimpleTextAdapter
      else SimpleTextAdapter
    else SimpleTextAdapter
  }

  /** The source type is matched without regard to letter case. */
  lemma TypeIgnoresCase(sourceType: string, sourceRef: string)
    ensures GetAdapter(Lower(sourceType), sourceRef) == GetAdapter(sourceType, sourceRef)
  {
    LowerIdempotent(sourceType);
  }

  /** Replacing a pattern holding `c` changes nothing in a text without `c`. */
  lemma {:induction false} ReplaceAbsent(s: string, pat: string, sub: string, c: char)
    requires pat != [] && c in pat && c !in s
    ensures N.Replace(s, pat, sub) == s
    decreases |s|
  {
    if |s| >= |pat| {
      assert s[..|pat|] != pat;
      ReplaceAbsent(s[1..], pat, sub, c);
      assert [s[0]] + s[1..] == s;
    }
  }

  /** Removing the dots of `"." + e`, where `e` has none, gives `e`. */
  lemma {:induction false} DropDots(e: string)
    requires '.' !in e
    ensures N.Replace("." + e, ".", "") == e
  {
    assert ("." + e)[..1] == ".";
    assert ("." + e)[1..] == e;
    ReplaceAbsent(e, ".", "", '.');
  }

  /**
   * A reference `file:<name>.<ext>` whose name and extension hold no path
   * separator, dot or colon is routed by the extension alone, in any letter
   * case, unless the source type is one of the explicit ones.
   */
  lemma FileRefByExtension(sourceType: string, name: string, ext: string)
    requires Lower(sourceType) != "pdf_text" && Lower(sourceType) !in TextTypes
    requires name != [] && ext != []
    requires '/' !in name && '.' !in name && ':' !in name
    requires '/' !in ext && '.' !in ext && ':' !in ext
    ensures GetAdapter(sourceType, "file:" + (name + "." + ext))
      == (if Lower(ext) == "pdf" then PdfAdapter else SimpleTextAdapter)
  {
    var path := name + "." + ext;
    FileRefPath(path);
    NameExtension(name, ext);
    LowerExt(ext);
    assert FileExtension("file:" + path) == Lower(ext);
  }

  /** The `file:` prefix is what the reference loses. */
  lemma FileRefPath(path: string)
    requires ':' !in path
    ensures Contains("file:" + path, "file:")
    ensures N.Replace("file:" + path, "file:", "") == path
  {
    var ref := "file:" + path;
    assert OccursAt(ref, "file:", 0);
    assert ref[..5] == "file:" && ref[5..] == path;
    ReplaceAbsent(path, "file:", "", ':');
  }

  /** A plain `<name>.<ext>` has the extension `.<ext>`. */
  lemma NameExtension(name: string, ext: string)
    requires name != [] && '/' !in name && '.' !in name
    requires '/' !in ext && '.' !in ext
    ensures Extension(name + "." + ext) == "." + ext
  {
    var path := name + "." + ext;
    assert RFindChar(path, '/') == -1;
    var dot := RFindChar(path, '.');
    assert path[|name|] == '.';
    assert forall i :: |name| < i < |path| ==> path[i] == ext[i - |name| - 1];
    assert dot == |name|;
    assert path[0] == name[0];
    assert path[dot..] == "." + ext;
  }

  /** The extension `.<ext>` lowercased and without its dot. */
  lemma LowerExt(ext: string)
    requires '.' !in ext
    ensures N.Replace(Lower("." + ext), ".", "") == Lower(ext)
  {
    LowerAppend(".", ext);
    assert Lower(".") == ".";
    assert forall i :: 0 <= i < |ext| ==> Lower(ext)[i] != '.';
    DropDots(Lower(ext));
  }
}
