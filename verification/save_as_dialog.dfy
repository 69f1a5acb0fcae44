/** The Save As dialog for the DXF and FreeCAD formats: the extension rule,
    the guards before a save starts, the extension swap when the format
    changes, and the scale label. The handlers and the background save are
    outside the model; whether a format's libraries are present is an input. */
module SaveAsDialog {
  import opened Text
  import opened Paths
  import opened NumFormat

  /** The format combo's text names DXF or FreeCAD by containing the word. */
  predicate IsDxf(formatText: string) {
    Contains(formatText, "DXF")
  }

  predicate IsFreeCad(formatText: string) {
    !IsDxf(formatText) && Contains(formatText, "FreeCAD")
  }

  /** The extension a format appends. */
  function AppendedExtension(formatText: string): string {
    if IsDxf(formatText) then ".dxf" else if IsFreeCad(formatText) then ".FCStd" else ""
  }

  /** The lower-case suffix that counts as already having the extension. */
  function ComparedExtension(formatText: string): (cmp: string)
    ensures cmp == Lower(AppendedExtension(formatText))
  {
    if IsDxf(formatText) then ".dxf" else if IsFreeCad(formatText) then ".fcstd" else ""
  }

  /** `start_save`'s extension rule: append ".dxf" (or ".FCStd") unless the
      lower-cased path already ends with ".dxf" (or ".fcstd"); other formats
      leave the path alone. */
  function AddExtension(path: string, formatText: string): (r: string)
    ensures StartsWith(r, path)
    ensures r == path || r == path + AppendedExtension(formatText)
    ensures EndsWith(Lower(r), ComparedExtension(formatText))
    ensures EndsWith(Lower(path), ComparedExtension(formatText)) <==> r == path
  {
    if IsDxf(formatText) then
      if EndsWith(Lower(path), ".dxf") then path else AppendEndsWith(path, ".dxf"); path + ".dxf"
    else if IsFreeCad(formatText) then
      if EndsWith(Lower(path), ".fcstd") then path else AppendEndsWith(path, ".FCStd"); path + ".FCStd"
    else path
  }

  /** Appending an extension makes the lower-cased path end with the
      lower-cased extension. */
  lemma AppendEndsWith(path: string, ext: string)
    ensures EndsWith(Lower(path + ext), Lower(ext))
  {
    LowerAppend(path, ext);
    assert Lower(path + ext)[|Lower(path + ext)| - |Lower(ext)|..] == Lower(ext);
  }

  /** Adding the extension a second time changes nothing. */
  lemma AddExtensionIdempotent(path: string, formatText: string)
    ensures AddExtension(AddExtension(path, formatText), formatText) == AddExtension(path, formatText)
  {
  }

  /** Why `start_save` stops, or what it starts. */
  datatype SaveOutcome =
    | NoDocument
    | NoOutputPath
    | FormatUnavailable(dxf: bool)
    | UnknownFormat
    | Started(path: string, dxf: bool)

  /** `start_save`. `hasDocument` is whether a source pixmap is set; the
      `available` flags say whether the format libraries are installed. */
  function StartSave(hasDocument: bool, pathText: string, formatText: string,
                     dxfAvailable: bool, freecadAvailable: bool): (r: SaveOutcome)
    ensures r.NoDocument? <==> !hasDocument
    ensures r.NoOutputPath? <==> hasDocument && Strip(pathText) == []
    ensures r.Started? ==> (r.path == AddExtension(Strip(pathText), formatText) && r.path != []
                            && (r.dxf <==> IsDxf(formatText))
                            && (if r.dxf then dxfAvailable else IsFreeCad(formatText) && freecadAvailable))
    ensures hasDocument && Strip(pathText) != [] ==>
      (r.Started? <==> (IsDxf(formatText) && dxfAvailable) || (IsFreeCad(formatText) && freecadAvailable))
  {
    if !hasDocument then NoDocument
    else
      var path := Strip(pathText);
      if path == [] then NoOutputPath
      else
        var out := AddExtension(path, formatText);
        if IsDxf(formatText) then (if dxfAvailable then Started(out, true) else FormatUnavailable(true))
        else if IsFreeCad(formatText) then (if freecadAvailable then Started(out, false) else FormatUnavailable(false))
        else UnknownFormat
  }

  /** `update_output_extension`: an empty path stays empty, any other path
      keeps its root and gets the new extension in place of the old one. */
  function UpdateOutputExtension(path: string, newExt: string): (r: string)
    ensures path == [] ==> r == []
    ensures path != [] ==> r == SplitExt(path).0 + newExt && StartsWith(path, SplitExt(path).0)
  {
    if path == [] then path else SplitExt(path).0 + newExt
  }

  /** When the root keeps a file name with a non-dot character, the new path
      splits into the old root and the new extension, so a second update with
      the same extension changes nothing. */
  lemma UpdateOutputExtensionSplits(path: string, newExt: string)
    requires path != [] && IsExtension(newExt) && HasNonDot(BaseName(SplitExt(path).0))
    ensures SplitExt(UpdateOutputExtension(path, newExt)) == (SplitExt(path).0, newExt)
    ensures UpdateOutputExtension(UpdateOutputExtension(path, newExt), newExt) == UpdateOutputExtension(path, newExt)
  {
    SplitExtOfJoin(SplitExt(path).0, newExt);
  }

  /** A path naming a directory (ending in a slash, such as "dir/") has no
      root file name, and the update is not idempotent there: "dir/" becomes
      "dir/.dxf" and then "dir/.dxf.dxf". */
  lemma UpdateOutputExtensionOfDirectory(d: string, e: string)
    requires d != [] && d[|d| - 1] == '/' && NoChar(d, '.') && IsExtension(e)
    ensures UpdateOutputExtension(d, e) == d + e
    ensures UpdateOutputExtension(d + e, e) == d + e + e
  {
    SplitExtNoDot(d);
    SplitExtHiddenIn(d, e);
  }

  /** `on_format_changed`: the DXF and FreeCAD formats swap in their
      extension. */
  function OnFormatChanged(path: string, formatText: string): (r: string)
    ensures IsDxf(formatText) ==> r == UpdateOutputExtension(path, ".dxf")
    ensures IsFreeCad(formatText) ==> r == UpdateOutputExtension(path, ".FCStd")
    ensures !IsDxf(formatText) && !IsFreeCad(formatText) ==> r == path
  {
    if IsDxf(formatText) then UpdateOutputExtension(path, ".dxf")
    else if IsFreeCad(formatText) then UpdateOutputExtension(path, ".FCStd")
    else path
  }

  /** `set_document_data`'s scale shown: the mm-per-pixel scale with six
      decimals, or "Not set (1:1)" for the unset scale 1.0. */
  function ScaleLabel(scale: real): (shown: string)
    ensures shown == "Not set (1:1)" <==> scale == 1.0
    ensures scale != 1.0 ==> EndsWith(shown, " mm/pixel")
  {
    if scale != 1.0 then
      var shown := Fixed(scale, 6) + " mm/pixel";
      assert shown[|shown| - 1] == 'l';
      shown
    else "Not set (1:1)"
  }
}
