/** The standalone extension test: its case table, checked against the Save
    As dialog's rule, which the test copies. */
module ExtensionLogic {
  import opened Text
  import opened SaveAsDialog

  /** The test's own copy of the rule: DXF first, then FreeCAD. It agrees
      with the dialog's rule on every path and format. */
  function TestRule(path: string, formatText: string): (r: string)
    ensures r == AddExtension(path, formatText)
  {
    if Contains(formatText, "DXF") then
      (if EndsWith(Lower(path), ".dxf") then path else path + ".dxf")
    else if Contains(formatText, "FreeCAD") then
      (if EndsWith(Lower(path), ".fcstd") then path else path + ".FCStd")
    else path
  }

  /** A text without an 'X' does not contain "DXF". */
  lemma NoDxfWithoutX(s: string)
    requires forall i :: 0 <= i < |s| ==> s[i] != 'X'
    ensures !Contains(s, "DXF")
  {
    forall i | 0 <= i <= |s| - 3
      ensures !IsWindow(s, "DXF", i)
    {
      assert s[i..i + 3][1] == s[i + 1];
    }
  }

  lemma FormatNames()
    ensures IsDxf("DXF (AutoCAD)") && IsFreeCad("FreeCAD (.FCStd)")
  {
    assert IsWindow("DXF (AutoCAD)", "DXF", 0);
    assert IsWindow("FreeCAD (.FCStd)", "FreeCAD", 0);
    NoDxfWithoutX("FreeCAD (.FCStd)");
  }

  /** A path that already ends with the extension, in any case, comes back
      unchanged, its case kept. */
  lemma ExistingExtensionKept(root: string, ext: string, formatText: string)
    requires IsDxf(formatText) || IsFreeCad(formatText)
    requires Lower(ext) == ComparedExtension(formatText)
    ensures AddExtension(root + ext, formatText) == root + ext
  {
    AppendEndsWith(root, ext);
  }

  /** A path whose tail differs from the extension in one character, case
      aside, gets the extension appended. */
  lemma MissingExtensionAppended(path: string, formatText: string, i: nat)
    requires IsDxf(formatText) || IsFreeCad(formatText)
    requires |ComparedExtension(formatText)| <= |path| && i < |ComparedExtension(formatText)|
    requires LowerChar(path[|path| - |ComparedExtension(formatText)| + i]) != ComparedExtension(formatText)[i]
    ensures AddExtension(path, formatText) == path + AppendedExtension(formatText)
  {
    var cmp := ComparedExtension(formatText);
    assert Lower(path)[|path| - |cmp|..][i] != cmp[i];
  }

  /** A DXF file name whose fourth character from the end is not a dot gets
      ".dxf"; one ending in ".dxf" or ".DXF" is kept as it is. */
  lemma DxfCases(f: string, root: string)
    requires IsDxf(f) && |root| >= 4 && root[|root| - 4] != '.'
    ensures AddExtension(root, f) == root + ".dxf"
    ensures AddExtension(root + ".dxf", f) == root + ".dxf"
    ensures AddExtension(root + ".DXF", f) == root + ".DXF"
  {
    assert ComparedExtension(f) == ".dxf" && AppendedExtension(f) == ".dxf";
    assert LowerChar(root[|root| - 4]) != '.';
    MissingExtensionAppended(root, f, 0);
    assert Lower(".dxf") == ".dxf" && Lower(".DXF") == ".dxf";
    ExistingExtensionKept(root, ".dxf", f);
    ExistingExtensionKept(root, ".DXF", f);
  }

  /** A FreeCAD file name whose sixth character from the end is not a dot
      gets ".FCStd"; one ending in ".FCStd" or ".fcstd" is kept as it is. */
  lemma FreeCadCases(f: string, root: string)
    requires IsFreeCad(f) && |root| >= 6 && root[|root| - 6] != '.'
    ensures AddExtension(root, f) == root + ".FCStd"
    ensures AddExtension(root + ".FCStd", f) == root + ".FCStd"
    ensures AddExtension(root + ".fcstd", f) == root + ".fcstd"
  {
    assert ComparedExtension(f) == ".fcstd" && AppendedExtension(f) == ".FCStd";
    assert LowerChar(root[|root| - 6]) != '.';
    MissingExtensionAppended(root, f, 0);
    assert Lower(".FCStd") == ".fcstd" && Lower(".fcstd") == ".fcstd";
    ExistingExtensionKept(root, ".FCStd", f);
    ExistingExtensionKept(root, ".fcstd", f);
  }

  /** The rows of the test's table, with its own format texts. */
  lemma CaseTable()
    ensures AddExtension("test01", "DXF (AutoCAD)") == "test01" + ".dxf"
    ensures AddExtension("test01" + ".dxf", "DXF (AutoCAD)") == "test01" + ".dxf"
    ensures AddExtension("test01" + ".DXF", "DXF (AutoCAD)") == "test01" + ".DXF"
    ensures AddExtension("my_drawing", "DXF (AutoCAD)") == "my_drawing" + ".dxf"
    ensures AddExtension("test01", "FreeCAD (.FCStd)") == "test01" + ".FCStd"
    ensures AddExtension("test01" + ".FCStd", "FreeCAD (.FCStd)") == "test01" + ".FCStd"
    ensures AddExtension("test01" + ".fcstd", "FreeCAD (.FCStd)") == "test01" + ".fcstd"
    ensures AddExtension("my_model", "FreeCAD (.FCStd)") == "my_model" + ".FCStd"
  {
    FormatNames();
    DxfCases("DXF (AutoCAD)", "test01");
    DxfCases("DXF (AutoCAD)", "my_drawing");
    FreeCadCases("FreeCAD (.FCStd)", "test01");
    FreeCadCases("FreeCAD (.FCStd)", "my_model");
  }
}
