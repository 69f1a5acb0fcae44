/** The settings store: defaults written on start, the boolean and integer
    readings of stored values, the recent-files and recent-projects lists,
    the DPI option list and the project storage mode. The store is a map
    from keys to values; the platform backend is outside the model. */
module Config {
  import opened Wrappers
  import opened Arith
  import opened Text

  /** A stored value. A JSON list of strings (how the recent lists are kept)
      is held already decoded; JSON encoding and decoding are not modelled. */
  datatype Value =
    | VText(text: string)
    | VInt(number: int)
    | VReal(amount: real)
    | VBool(flag: bool)
    | VList(items: seq<string>)

  type Settings = map<string, Value>

  /** `get(key, default)`. */
  function Get(s: Settings, key: string, default: Value): (v: Value)
    ensures key in s ==> v == s[key]
    ensures key !in s ==> v == default
  {
    if key in s then s[key] else default
  }

  // ---------------------------------------------------------------------
  // Defaults

  /** The keys `load_defaults` writes, with their values; `home` is the
      user's home directory. */
  function Defaults(home: string): (d: map<string, Value>)
    ensures "last_input_dir" in d && d["last_input_dir"] == VText(home)
    ensures "last_output_dir" in d && d["last_output_dir"] == VText(home)
    ensures StorageKey in d && d[StorageKey] == VText("embedded")
  {
    map[
      "default_units" := VText("mm"),
      "default_dpi" := VInt(300),
      "default_page_size" := VText("A4"),
      "window_geometry" := VText(""),
      "window_state" := VText(""),
      "gutter_size_mm" := VReal(10.0),
      "page_orientation" := VText("auto"),
      "page_indicator_position" := VText("bottom-right"),
      "page_indicator_font_size" := VInt(12),
      "page_indicator_font_color" := VText("#FFFFFF"),
      "page_indicator_font_style" := VText("bold"),
      "page_indicator_alpha" := VInt(255),
      "page_indicator_display" := VBool(true),
      "page_indicator_print" := VBool(true),
      "gutter_lines_display" := VBool(true),
      "gutter_lines_print" := VBool(true),
      "crop_marks_display" := VBool(true),
      "crop_marks_print" := VBool(true),
      "reg_marks_display" := VBool(true),
      "reg_marks_print" := VBool(true),
      "reg_mark_diameter_mm" := VReal(8.0),
      "reg_mark_crosshair_mm" := VReal(8.0),
      "scale_bar_display" := VBool(true),
      "scale_bar_print" := VBool(true),
      "scale_bar_location" := VText("Page-S"),
      "scale_bar_opacity" := VInt(60),
      "scale_bar_length_in" := VReal(6.0),
      "scale_bar_length_cm" := VReal(10.0),
      "scale_bar_thickness_mm" := VReal(5.0),
      "scale_bar_padding_mm" := VReal(5.0),
      "scale_line_display" := VBool(true),
      "scale_line_print" := VBool(false),
      "datum_line_display" := VBool(true),
      "datum_line_print" := VBool(false),
      "datum_line_color" := VText("#FF0000"),
      "datum_line_style" := VText("dash"),
      "datum_line_width_px" := VInt(2),
      "scale_text_display" := VBool(true),
      "scale_text_print" := VBool(true),
      "recent_files" := VList([]),
      "max_recent_files" := VInt(10),
      "include_metadata_page" := VBool(true),
      "metadata_page_position" := VText("first"),
      "recent_projects" := VList([]),
      "max_recent_projects" := VInt(10),
      "open_last_project_on_startup" := VBool(false),
      "logging_enabled" := VBool(false),
      "logging_level" := VText("WARNING"),
      "logging_printing" := VBool(true),
      "logging_projects" := VBool(true),
      "logging_preview" := VBool(true),
      "logging_viewer" := VBool(true),
      "logging_export" := VBool(true),
      "logging_metadata" := VBool(true),
      "logging_settings" := VBool(true),
      "last_input_dir" := VText(home),
      "last_output_dir" := VText(home),
      "project_original_storage" := VText("embedded")]
  }

  /** `load_defaults`: every default key ends up present, a key already
      present keeps its value, and an absent key gets its default. */
  function LoadDefaults(s: Settings, home: string): (r: Settings)
    ensures r.Keys == s.Keys + Defaults(home).Keys
    ensures forall k :: k in s ==> r[k] == s[k]
    ensures forall k :: k !in s && k in Defaults(home) ==> r[k] == Defaults(home)[k]
  {
    var d := Defaults(home);
    map k | k in s.Keys + d.Keys :: if k in s then s[k] else d[k]
  }

  /** Loading the defaults again changes nothing. */
  lemma LoadDefaultsIdempotent(s: Settings, home: string)
    ensures LoadDefaults(LoadDefaults(s, home), home) == LoadDefaults(s, home)
  {
  }

  // ---------------------------------------------------------------------
  // Readings of stored values

  /** The boolean getters (and the logger's `_safe_bool`): text is true
      exactly when it reads "true" in any case; other values by Python's
      truth. A JSON list's text starts with a bracket and never reads
      "true". */
  function SafeBool(v: Value): (b: bool)
    ensures v.VText? ==> (b <==> Lower(v.text) == "true")
    ensures v.VBool? ==> b == v.flag
  {
    match v
    case VText(t) => Lower(t) == "true"
    case VInt(n) => n != 0
    case VReal(x) => x != 0.0
    case VBool(f) => f
    case VList(_) => false
  }

  /** A boolean setting: the stored value, or the default when absent. */
  function GetBool(s: Settings, key: string, default: bool): (b: bool)
    ensures key !in s ==> b == default
    ensures key in s && s[key].VBool? ==> b == s[key].flag
    ensures key in s && s[key].VText? ==> (b <==> Lower(s[key].text) == "true")
  {
    SafeBool(Get(s, key, VBool(default)))
  }

  /** Setting a flag and reading it back gives the flag; a backend that
      hands it back as the text "true" or "false" gives it too. */
  lemma GetBoolRoundTrip(s: Settings, key: string, b: bool, d: bool)
    ensures GetBool(s[key := VBool(b)], key, d) == b
    ensures GetBool(s[key := VText(if b then "true" else "false")], key, d) == b
    ensures GetBool(s[key := VText("True")], key, d)
  {
    assert Lower("True") == "true";
    assert Lower("true") == "true";
    assert Lower("false")[0] == 'f';
  }

  /** Python's `bool(v)`: non-empty text is true whatever it says. */
  function PyBool(v: Value): (b: bool)
    ensures v.VText? ==> (b <==> v.text != [])
    ensures v.VBool? ==> b == v.flag
  {
    match v
    case VText(t) => t != []
    case VInt(n) => n != 0
    case VReal(x) => x != 0.0
    case VBool(f) => f
    case VList(l) => true
  }

  /** `get_include_metadata_page` as written: `bool()` of the stored value. */
  function IncludeMetadataPageAsWritten(s: Settings): (b: bool)
    ensures "include_metadata_page" !in s ==> b
    ensures "include_metadata_page" in s && s["include_metadata_page"].VText? ==>
      (b <==> s["include_metadata_page"].text != [])
  {
    PyBool(Get(s, "include_metadata_page", VBool(true)))
  }

  /** `get_include_metadata_page` read like every other boolean setting. */
  function IncludeMetadataPage(s: Settings): (b: bool)
    ensures "include_metadata_page" !in s ==> b
    ensures "include_metadata_page" in s && s["include_metadata_page"].VBool? ==> b == s["include_metadata_page"].flag
    ensures "include_metadata_page" in s && s["include_metadata_page"].VText? ==>
      (b <==> Lower(s["include_metadata_page"].text) == "true")
  {
    GetBool(s, "include_metadata_page", true)
  }

  /** A stored False handed back by the settings store as the text "false"
      reads as True as written and as False when read as a boolean setting. */
  lemma IncludeMetadataPageFalseText(s: Settings)
    ensures var t := s["include_metadata_page" := VText("false")];
      IncludeMetadataPageAsWritten(t) && !IncludeMetadataPage(t)
  {
    assert Lower("false")[0] == 'f';
  }

  /** `int(v)`: text is parsed after stripping, a float truncated toward
      zero, a flag is 0 or 1; `None` stands for the exception a list or
      malformed text raises. */
  function PyInt(v: Value): (n: Option<int>)
    ensures v.VInt? ==> n == Some(v.number)
  {
    match v
    case VText(t) => ParseInt(Strip(t))
    case VInt(i) => Some(i)
    case VReal(x) => Some(Trunc(x))
    case VBool(f) => Some(if f then 1 else 0)
    case VList(_) => None
  }

  // ---------------------------------------------------------------------
  // Recent files and projects

  /** A recent list: the stored JSON list, or empty for anything else. */
  function RecentList(s: Settings, key: string): (l: seq<string>)
    ensures key in s && s[key].VList? ==> l == s[key].items
    ensures !(key in s && s[key].VList?) ==> l == []
  {
    match Get(s, key, VList([]))
    case VList(l) => l
    case _ => []
  }

  /** The index of the first `x` in `l`, or `|l|`. */
  function Find(l: seq<string>, x: string): (i: nat)
    ensures i <= |l| && x !in l[..i] && (i < |l| ==> l[i] == x)
    ensures i == |l| <==> x !in l
  {
    if l == [] then 0
    else if l[0] == x then 0
    else
      var i := Find(l[1..], x);
      assert l[..i + 1] == [l[0]] + l[1..][..i];
      assert l == [l[0]] + l[1..];
      i + 1
  }

  /** `list.remove(x)` when `x` is present: the first occurrence goes. */
  function RemoveFirst(l: seq<string>, x: string): (r: seq<string>)
    ensures x in l ==> |r| == |l| - 1 && multiset(r) == multiset(l) - multiset{x}
    ensures x !in l ==> r == l
  {
    var i := Find(l, x);
    if i == |l| then l
    else
      assert l == l[..i] + [x] + l[i + 1..];
      l[..i] + l[i + 1..]
  }

  /** Python's `l[:n]`: a negative `n` counts from the end. */
  function PySliceTo<T>(l: seq<T>, n: int): (r: seq<T>)
    ensures n >= 0 ==> r == l[..MinI(n, |l|)]
    ensures n < 0 ==> r == l[..MaxI(0, |l| + n)]
  {
    if n >= 0 then l[..MinI(n, |l|)] else l[..MaxI(0, |l| + n)]
  }

  predicate NoDuplicates(l: seq<string>) {
    forall i, j :: 0 <= i < j < |l| ==> l[i] != l[j]
  }

  /** Removing `x` from a list without duplicates leaves no `x` and no
      duplicates, and every element left was there before. */
  lemma RemoveFirstKeeps(l: seq<string>, x: string)
    ensures forall y :: y in RemoveFirst(l, x) ==> y in l
    ensures NoDuplicates(l) ==> x !in RemoveFirst(l, x) && NoDuplicates(RemoveFirst(l, x))
  {
    var r := RemoveFirst(l, x);
    if x in l {
      var i := Find(l, x);
      assert forall k :: 0 <= k < |r| ==> r[k] == (if k < i then l[k] else l[k + 1]);
    }
  }

  /** `add_recent_file` / `add_recent_project` on the list: the path moves
      (or is added) to the front and the list is cut to `limit`. */
  function AddRecent(l: seq<string>, p: string, limit: int): (r: seq<string>)
    ensures limit >= 1 ==> r != [] && r[0] == p
    ensures limit >= 0 ==> |r| <= limit
    ensures NoDuplicates(l) ==> NoDuplicates(r)
    ensures NoDuplicates(l) ==> forall i :: 1 <= i < |r| ==> r[i] != p
    ensures forall x :: x in r ==> x == p || x in l
    ensures var n := |RemoveFirst(l, p)| + 1;
      |r| == if limit >= 0 then MinI(limit, n) else MaxI(0, n + limit)
    ensures r != [] ==> r[0] == p && r[1..] == RemoveFirst(l, p)[..|r| - 1]
  {
    var rest := RemoveFirst(l, p);
    RemoveFirstKeeps(l, p);
    var r := PySliceTo([p] + rest, limit);
    SliceOfFront(p, rest, limit);
    FrontKeepsDistinct(l, p, rest, r);
    r
  }

  /** A list made of `p` followed by a prefix of `rest` holds nothing but
      `p` and elements of `l`, and repeats nothing when `rest` comes from a
      list `l` without duplicates and no longer holds `p`. */
  lemma FrontKeepsDistinct(l: seq<string>, p: string, rest: seq<string>, r: seq<string>)
    requires |r| <= |rest| + 1
    requires r != [] ==> r[0] == p && r[1..] == rest[..|r| - 1]
    requires forall y :: y in rest ==> y in l
    requires NoDuplicates(l) ==> p !in rest && NoDuplicates(rest)
    ensures NoDuplicates(l) ==> NoDuplicates(r) && forall i :: 1 <= i < |r| ==> r[i] != p
    ensures forall x :: x in r ==> x == p || x in l
  {
    if r != [] {
      assert forall i :: 1 <= i < |r| ==> r[i] == r[1..][i - 1] == rest[i - 1];
    }
  }

  /** Cutting `[p] + rest` keeps `p` in front of a prefix of `rest`. */
  lemma SliceOfFront(p: string, rest: seq<string>, limit: int)
    ensures var r := PySliceTo([p] + rest, limit);
      |r| == (if limit >= 0 then MinI(limit, |rest| + 1) else MaxI(0, |rest| + 1 + limit))
      && (r != [] ==> r[0] == p && r[1..] == rest[..|r| - 1])
  {
    var full := [p] + rest;
    var r := PySliceTo(full, limit);
    if r != [] {
      assert r[1..] == full[1..|r|];
      assert full[1..] == rest;
    }
  }

  /** The recent list after adding `p`, stored back as a JSON list; `None`
      when the stored limit is not an integer (the exception). */
  function AddRecentSetting(s: Settings, key: string, maxKey: string, p: string): (r: Option<Settings>)
    ensures r.Some? <==> PyInt(Get(s, maxKey, VInt(10))).Some?
    ensures r.Some? ==> r.value == s[key := VList(AddRecent(RecentList(s, key), p, PyInt(Get(s, maxKey, VInt(10))).value))]
  {
    match PyInt(Get(s, maxKey, VInt(10)))
    case None => None
    case Some(limit) => Some(s[key := VList(AddRecent(RecentList(s, key), p, limit))])
  }

  /** `remove_recent_file` / `remove_recent_project`: the store is written
      only when the path is in the list, without its first occurrence. */
  function RemoveRecentSetting(s: Settings, key: string, p: string): (r: Settings)
    ensures p !in RecentList(s, key) ==> r == s
    ensures p in RecentList(s, key) ==> r == s[key := VList(RemoveFirst(RecentList(s, key), p))]
  {
    var l := RecentList(s, key);
    if p in l then s[key := VList(RemoveFirst(l, p))] else s
  }

  /** Adding a path and removing it again from a list that did not hold it
      gives back the old list, when the limit keeps everything. */
  lemma AddThenRemove(l: seq<string>, p: string, limit: int)
    requires p !in l && limit > |l|
    ensures RemoveFirst(AddRecent(l, p, limit), p) == l
  {
    assert AddRecent(l, p, limit) == [p] + l;
  }

  // ---------------------------------------------------------------------
  // DPI options

  const DpiKey := "available_dpi_options"

  /** Each comma-separated piece read by `int(piece.strip())`. */
  function ParseInts(parts: seq<string>): (r: Option<seq<int>>)
    ensures r.Some? ==> |r.value| == |parts|
  {
    if parts == [] then Some([])
    else match (ParseInt(Strip(parts[0])), ParseInts(parts[1..]))
      case (Some(n), Some(rest)) => Some([n] + rest)
      case _ => None
  }

  /** `get_available_dpi_options`; `None` stands for the exception raised by
      a stored value that is not a comma-separated list of integers. */
  function GetDpiOptions(s: Settings): (r: Option<seq<int>>)
    ensures DpiKey in s && !s[DpiKey].VText? ==> r.None?
    ensures DpiKey !in s ==> r == Some([75, 100, 150, 300, 600])
  {
    DefaultDpiText();
    if DpiKey !in s then ParseInts(Split("75,100,150,300,600", ','))
    else match s[DpiKey]
      case VText(t) => ParseInts(Split(t, ','))
      case _ => None
  }

  /** The getter's fallback text reads as the five DPI values. */
  lemma DefaultDpiText()
    ensures ParseInts(Split("75,100,150,300,600", ',')) == Some([75, 100, 150, 300, 600])
  {
    var parts: seq<string> := ["75", "100", "150", "300", "600"];
    DefaultDpiStrings();
    DefaultDpiJoin();
    forall i | 0 <= i < |parts|
      ensures NoChar(parts[i], ',')
    {
      IntStringNoComma([75, 100, 150, 300, 600][i]);
    }
    SplitJoin(parts, ',');
    ParseIntStrings([75, 100, 150, 300, 600]);
  }

  lemma DefaultDpiStrings()
    ensures IntStrings([75, 100, 150, 300, 600]) == ["75", "100", "150", "300", "600"]
  {
    assert IntToString(75) == "75" && IntToString(100) == "100" && IntToString(150) == "150";
    assert IntToString(300) == "300" && IntToString(600) == "600";
  }

  lemma DefaultDpiJoin()
    ensures Join(["75", "100", "150", "300", "600"], ',') == "75,100,150,300,600"
  {
    var parts: seq<string> := ["75", "100", "150", "300", "600"];
    assert Join(parts[3..], ',') == "300,600";
    assert Join(parts[2..], ',') == "150,300,600";
    assert Join(parts[1..], ',') == "100,150,300,600";
  }

  function IntStrings(l: seq<int>): (r: seq<string>)
    ensures |r| == |l| && forall i :: 0 <= i < |l| ==> r[i] == IntToString(l[i])
  {
    if l == [] then [] else [IntToString(l[0])] + IntStrings(l[1..])
  }

  /** `set_available_dpi_options`: the numbers joined with commas. */
  function SetDpiOptions(s: Settings, l: seq<int>): (r: Settings)
    ensures DpiKey in r && r[DpiKey].VText?
    ensures forall k :: k != DpiKey ==> (k in r <==> k in s) && (k in s ==> r[k] == s[k])
  {
    s[DpiKey := VText(Join(IntStrings(l), ','))]
  }

  lemma IntStringNoComma(n: int)
    ensures NoChar(IntToString(n), ',') && Strip(IntToString(n)) == IntToString(n)
  {
    var t := IntToString(n);
    IntStringChars(n);
    forall i | 0 <= i < |t|
      ensures t[i] != ','
    {
      if i > 0 {
        assert IsDigit(t[i]);
      }
    }
    assert !IsSpace(t[0]) && !IsSpace(t[|t| - 1]);
    StripTrimmed(t);
  }

  /** The text of an integer is a minus sign or a digit, then digits. */
  lemma IntStringChars(n: int)
    ensures var t := IntToString(n);
      |t| >= 1 && (t[0] == '-' || IsDigit(t[0])) && IsDigit(t[|t| - 1])
      && forall i :: 1 <= i < |t| ==> IsDigit(t[i])
  {
    var d := NatToDigits(if n < 0 then -n else n);
    if n < 0 {
      var t := "-" + d;
      assert forall i :: 1 <= i < |t| ==> t[i] == d[i - 1];
    }
  }

  lemma {:induction false} ParseIntStrings(l: seq<int>)
    ensures ParseInts(IntStrings(l)) == Some(l)
  {
    if l != [] {
      var parts := IntStrings(l);
      IntStringNoComma(l[0]);
      ParseIntToString(l[0]);
      assert ParseInt(Strip(parts[0])) == Some(l[0]);
      assert parts[1..] == IntStrings(l[1..]);
      ParseIntStrings(l[1..]);
      assert [l[0]] + l[1..] == l;
    }
  }

  /** Setting a non-empty DPI list and reading it back gives the same list. */
  lemma DpiOptionsRoundTrip(s: Settings, l: seq<int>)
    requires l != []
    ensures GetDpiOptions(SetDpiOptions(s, l)) == Some(l)
  {
    var parts := IntStrings(l);
    forall i | 0 <= i < |parts|
      ensures NoChar(parts[i], ',')
    {
      IntStringNoComma(l[i]);
    }
    SplitJoin(parts, ',');
    ParseIntStrings(l);
  }

  /** A limit or a DPI piece may group its digits with underscores, as
      `int()` allows: "1_0" is ten, and "75,1_200" lists 75 and 1200. */
  lemma GroupedLimit(s: Settings, key: string, maxKey: string, p: string)
    requires maxKey in s && s[maxKey] == VText("1_0")
    ensures PyInt(s[maxKey]) == Some(10)
    ensures AddRecentSetting(s, key, maxKey, p) == Some(s[key := VList(AddRecent(RecentList(s, key), p, 10))])
  {
    StripTrimmed("1_0");
    ParseIntSignedGroups();
    assert Get(s, maxKey, VInt(10)) == VText("1_0");
  }

  lemma GroupedDpiOptions(s: Settings)
    ensures GetDpiOptions(s[DpiKey := VText("75,1_200")]) == Some([75, 1200])
  {
    GroupedDpiSplit();
    GroupedDpiParse();
  }

  lemma GroupedDpiSplit()
    ensures Split("75,1_200", ',') == ["75", "1_200"]
  {
    var t := "75,1_200";
    assert IndexOf(t, ',') == 2 by { assert t[0] != ',' && t[1] != ',' && t[2] == ','; }
    assert t[..2] == "75" && t[3..] == "1_200";
    IndexOfAbsent("1_200", ',');
  }

  lemma GroupedDpiParse()
    ensures ParseInts(["75", "1_200"]) == Some([75, 1200])
  {
    PlainPiece("75");
    GroupedPiece("1_200");
    ParseIntsPair("75", "1_200", 75, 1200);
  }

  lemma PlainPiece(a: string)
    requires a == "75"
    ensures ParseInt(Strip(a)) == Some(75)
  {
    assert a[0] == '7' && a[|a| - 1] == '5';
    StripTrimmed(a);
    ParseIntToString(75);
    assert IntToString(75) == a;
  }

  lemma GroupedPiece(b: string)
    requires b == "1_200"
    ensures ParseInt(Strip(b)) == Some(1200)
  {
    assert b[0] == '1' && b[|b| - 1] == '0';
    StripTrimmed(b);
    ParseIntGrouped();
  }

  /** Two pieces read as the list of their two values. */
  lemma ParseIntsPair(a: string, b: string, m: int, n: int)
    requires ParseInt(Strip(a)) == Some(m) && ParseInt(Strip(b)) == Some(n)
    ensures ParseInts([a, b]) == Some([m, n])
  {
    ParseIntsSingle(b, n);
    var tail: seq<string> := [b];
    var vs: seq<int> := [n];
    ParseIntsCons(a, tail, m, vs);
    assert [a] + tail == [a, b];
    assert [m] + vs == [m, n];
  }

  lemma ParseIntsSingle(b: string, n: int)
    requires ParseInt(Strip(b)) == Some(n)
    ensures ParseInts([b]) == Some([n])
  {
    var e: seq<string> := [];
    var ns: seq<int> := [];
    assert ParseInts(e) == Some(ns);
    ParseIntsCons(b, e, n, ns);
    assert [b] + e == [b];
    assert [n] + ns == [n];
  }

  lemma ParseIntsCons(p: string, rest: seq<string>, n: int, ns: seq<int>)
    requires ParseInt(Strip(p)) == Some(n) && ParseInts(rest) == Some(ns)
    ensures ParseInts([p] + rest) == Some([n] + ns)
  {
    assert ([p] + rest)[0] == p && ([p] + rest)[1..] == rest;
  }

  /** An empty list is stored as the empty text, which does not read back:
      `int("")` raises. */
  lemma EmptyDpiOptions(s: Settings)
    ensures GetDpiOptions(SetDpiOptions(s, [])) == None
  {
    IndexOfAbsent("", ',');
  }

  // ---------------------------------------------------------------------
  // Project storage mode

  const StorageKey := "project_original_storage"

  predicate IsStorageMode(m: string) {
    m in {"reference", "sidecar", "embedded"}
  }

  /** `set_project_original_storage`: an unknown mode is stored as
      "reference". */
  function SetStorageMode(s: Settings, mode: string): (r: Settings)
    ensures StorageKey in r && r[StorageKey].VText? && IsStorageMode(r[StorageKey].text)
    ensures IsStorageMode(mode) ==> r[StorageKey] == VText(mode)
    ensures !IsStorageMode(mode) ==> r[StorageKey] == VText("reference")
  {
    s[StorageKey := VText(if IsStorageMode(mode) then mode else "reference")]
  }

  /** `get_project_original_storage`: the stored value, "reference" when
      absent. */
  function GetStorageMode(s: Settings): (v: Value)
    ensures StorageKey !in s ==> v == VText("reference")
    ensures StorageKey in s ==> v == s[StorageKey]
  {
    Get(s, StorageKey, VText("reference"))
  }

  /** Setting and getting the mode agree, and the getter's fallback differs
      from what the defaults write: absent reads "reference", while after
      `load_defaults` it reads "embedded". */
  lemma StorageModeDefaults(s: Settings, mode: string, home: string)
    ensures GetStorageMode(SetStorageMode(s, mode)) == VText(if IsStorageMode(mode) then mode else "reference")
    ensures GetStorageMode(map[]) == VText("reference")
    ensures GetStorageMode(LoadDefaults(map[], home)) == VText("embedded")
  {
  }
}
