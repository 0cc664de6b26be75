/** The grid state of the pixel editor's web backend: the 8x8 `current_pixels` grid the
    endpoints update, the colour strings exchanged with the page, the preset patterns,
    and the flattening that stores a grid as an image. */
module Editor {
  import opened Wrappers
  import opened Hex
  import opened Text
  import opened Sorting
  import opened Database

  const GridSize := 8

  /** An 8x8 grid of pixels, indexed `[y][x]`. */
  predicate Grid(g: seq<seq<Pixel>>) {
    |g| == GridSize && forall y :: 0 <= y < |g| ==> |g[y]| == GridSize
  }

  predicate InGrid(v: int) {
    0 <= v < GridSize
  }

  predicate IsByte(v: int) {
    0 <= v < 256
  }

  const BlackPixel := Pixel(0, 0, 0)

  /** `[[[0, 0, 0] for _ in range(8)] for _ in range(8)]` */
  function Blank(): (g: seq<seq<Pixel>>)
    ensures Grid(g)
    ensures forall y, x :: 0 <= y < GridSize && 0 <= x < GridSize ==> g[y][x] == BlackPixel
  {
    seq(GridSize, y => seq(GridSize, x => BlackPixel))
  }

  // ---- Colour strings ----

  /** The field `h[i:i+2]` that `hex_to_rgb` parses. */
  function Field(h: string, i: nat): (f: string)
    ensures |f| <= 2
  {
    Slice(h, i, i + 2)
  }

  /** Python's `int(s, 16)` on a string of at most two characters: surrounding whitespace
      is ignored, one sign is allowed, and then only hex digits of either case. */
  function ParseHexField(s: string): (r: Option<int>)
    requires |s| <= 2
    ensures r.Some? ==> -15 <= r.value < 256
  {
    var t := Strip(s);
    if t == [] then None
    else if t[0] == '-' || t[0] == '+' then
      var digits := t[1..];
      if digits != [] && AllHex(digits) then
        ValueBound(digits);
        var v: int := Value(digits);
        Some(if t[0] == '-' then -v else v)
      else None
    else if AllHex(t) then
      ValueBound(t);
      Some(Value(t))
    else None
  }

  /** Which field of the colour string `int(..., 16)` rejected: 0, 2 or 4. */
  datatype HexError = BadField(offset: nat)

  /** `hex_to_rgb`: leading `#`s are dropped and the fields at 0, 2 and 4 are read in
      order; the first one that does not parse fails the call. */
  function HexToRgb(color: string): (r: Result<Pixel, HexError>)
    ensures r.Err? ==> r.error.offset in {0, 2, 4}
    ensures r.Ok? ==> -15 <= r.value.r < 256 && -15 <= r.value.g < 256 && -15 <= r.value.b < 256
    ensures var h := TrimLeading(color, '#');
      r.Ok? <==> ParseHexField(Field(h, 0)).Some? && ParseHexField(Field(h, 2)).Some? && ParseHexField(Field(h, 4)).Some?
    ensures var h := TrimLeading(color, '#');
      r.Ok? ==> r.value == Pixel(ParseHexField(Field(h, 0)).value, ParseHexField(Field(h, 2)).value, ParseHexField(Field(h, 4)).value)
    ensures var h := TrimLeading(color, '#');
      r.Err? ==>
        ParseHexField(Field(h, r.error.offset)).None?
        && (r.error.offset >= 2 ==> ParseHexField(Field(h, 0)).Some?)
        && (r.error.offset >= 4 ==> ParseHexField(Field(h, 2)).Some?)
  {
    var h := TrimLeading(color, '#');
    match ParseHexField(Field(h, 0))
    case None => Err(BadField(0))
    case Some(red) =>
      match ParseHexField(Field(h, 2))
      case None => Err(BadField(2))
      case Some(green) =>
        match ParseHexField(Field(h, 4))
        case None => Err(BadField(4))
        case Some(blue) => Ok(Pixel(red, green, blue))
  }

  /** `rgb_to_hex`: `f"#{r:02x}{g:02x}{b:02x}"` */
  function RgbToHex(r: int, g: int, b: int): string {
    "#" + Format(r, 2, false) + Format(g, 2, false) + Format(b, 2, false)
  }

  /** For components in 0..255 the colour string is `#` and six lower-case hex digits,
      two per component, most significant first. */
  lemma RgbToHexShape(r: int, g: int, b: int)
    requires IsByte(r) && IsByte(g) && IsByte(b)
    ensures var s := RgbToHex(r, g, b);
      |s| == 7 && s[0] == '#' && AllDigitsOfCase(s[1..], false)
      && Value(s[1..3]) == r && Value(s[3..5]) == g && Value(s[5..7]) == b
  {
    FormatFixedWidth(r, 2, false);
    FormatFixedWidth(g, 2, false);
    FormatFixedWidth(b, 2, false);
    var s := RgbToHex(r, g, b);
    assert s[1..3] == Format(r, 2, false);
    assert s[3..5] == Format(g, 2, false);
    assert s[5..7] == Format(b, 2, false);
  }

  lemma HexDigitNotSpace(c: char)
    requires IsHexDigit(c)
    ensures !IsSpace(c) && c != '-' && c != '+'
  {
  }

  /** Two hex digits parse to their value. */
  lemma ParseTwoDigits(s: string)
    requires |s| == 2 && AllHex(s)
    ensures ParseHexField(s) == Some(Value(s))
  {
    HexDigitNotSpace(s[0]);
    HexDigitNotSpace(s[1]);
    StripNoSpace(s);
  }

  /** `lstrip('#')` drops exactly the one `#` in front of a string that starts with a digit. */
  lemma TrimOneHash(d: string)
    requires d != [] && IsHexDigit(d[0])
    ensures TrimLeading("#" + d, '#') == d
  {
    assert ("#" + d)[1..] == d;
  }

  /** Six hex digits, with or without leading `#`s, are read as three two-digit fields. */
  lemma HexToRgbSixDigits(h: string)
    requires |h| == 6 && AllHex(h)
    ensures HexToRgb(h) == Ok(Pixel(Value(h[0..2]), Value(h[2..4]), Value(h[4..6])))
    ensures HexToRgb("#" + h) == HexToRgb(h)
  {
    TrimOneHash(h);
    assert TrimLeading(h, '#') == h;
    assert Field(h, 0) == h[0..2] && Field(h, 2) == h[2..4] && Field(h, 4) == h[4..6];
    ParseTwoDigits(h[0..2]);
    ParseTwoDigits(h[2..4]);
    ParseTwoDigits(h[4..6]);
  }

  /** The three fields of a `#rrggbb` string. */
  lemma ColourFields(a: string, b: string, c: string)
    requires |a| == 2 && |b| == 2 && |c| == 2
    ensures var h := a + b + c;
      "#" + a + b + c == "#" + h && |h| == 6 && h[0..2] == a && h[2..4] == b && h[4..6] == c
  {
    var h := a + b + c;
    assert h[0..2] == a;
    assert h[2..4] == b;
    assert h[4..6] == c;
  }

  /** `hex_to_rgb(rgb_to_hex(r, g, b)) == (r, g, b)` for components in 0..255. */
  lemma HexRoundTrip(r: int, g: int, b: int)
    requires IsByte(r) && IsByte(g) && IsByte(b)
    ensures HexToRgb(RgbToHex(r, g, b)) == Ok(Pixel(r, g, b))
  {
    var fr, fg, fb := Format(r, 2, false), Format(g, 2, false), Format(b, 2, false);
    FormatFixedWidth(r, 2, false);
    FormatFixedWidth(g, 2, false);
    FormatFixedWidth(b, 2, false);
    ColourFields(fr, fg, fb);
    var h := fr + fg + fb;
    assert AllHex(h) by {
      forall i | 0 <= i < 6 ensures IsHexDigit(h[i]) {
        if i < 2 { assert h[i] == fr[i]; }
        else if i < 4 { assert h[i] == fg[i - 2]; }
        else { assert h[i] == fb[i - 4]; }
      }
    }
    HexToRgbSixDigits(h);
  }

  /** A colour string with at most four characters after its `#`s never parses: the
      field at offset 4 is empty. */
  lemma HexToRgbNeedsFiveDigits(color: string)
    requires |TrimLeading(color, '#')| <= 4
    ensures HexToRgb(color).Err?
  {
    var h := TrimLeading(color, '#');
    assert Field(h, 4) == [];
  }

  // ---- Presets ----

  /** A preset: its display name and its rows, one letter per pixel as in the source
      (`_` black, `R` red, `G` green, `B` blue, `Y` yellow, `W` white, `O` orange,
      `P` magenta, `C` cyan). */
  datatype Preset = Preset(name: string, rows: seq<string>)

  predicate InPalette(c: char) {
    c == '_' || c == 'R' || c == 'G' || c == 'B' || c == 'Y' || c == 'W' || c == 'O' || c == 'P' || c == 'C'
  }

  function Palette(c: char): Pixel {
    match c
    case 'R' => Pixel(255, 0, 0)
    case 'G' => Pixel(0, 255, 0)
    case 'B' => Pixel(0, 0, 255)
    case 'Y' => Pixel(255, 255, 0)
    case 'W' => Pixel(255, 255, 255)
    case 'O' => Pixel(255, 128, 0)
    case 'P' => Pixel(255, 0, 255)
    case 'C' => Pixel(0, 255, 255)
    case _ => BlackPixel
  }

  /** The pixel rows a preset's letters stand for. */
  function Pattern(rows: seq<string>): (g: seq<seq<Pixel>>)
    ensures |g| == |rows|
    ensures forall y :: 0 <= y < |rows| ==> |g[y]| == |rows[y]|
  {
    seq(|rows|, y requires 0 <= y < |rows| => seq(|rows[y]|, x requires 0 <= x < |rows[y]| => Palette(rows[y][x])))
  }

  const PresetIds: seq<string> := ["heart", "smiley", "star", "sun", "ghost", "alien", "fire", "rainbow"]

  /** `PRESETS` */
  function Presets(id: string): Option<Preset> {
    if id == "heart" then Some(Preset("Herz", [
        "_RR__RR_",
        "RRRRRRRR",
        "RRRRRRRR",
        "RRRRRRRR",
        "_RRRRRR_",
        "__RRRR__",
        "___RR___",
        "________"
      ]))
    else if id == "smiley" then Some(Preset("Smiley", [
        "__YYYY__",
        "_YYYYYY_",
        "YY_YY_YY",
        "YYYYYYYY",
        "YYYYYYYY",
        "Y_YYYY_Y",
        "_Y____Y_",
        "__YYYY__"
      ]))
    else if id == "star" then Some(Preset("Stern", [
        "___YY___",
        "___YY___",
        "YYYYYYYY",
        "_YYYYYY_",
        "__YYYY__",
        "_YY__YY_",
        "YY____YY",
        "Y______Y"
      ]))
    else if id == "sun" then Some(Preset("Sonne", [
        "__O__O__",
        "___OO___",
        "O_YYYY_O",
        "_OYYYYO_",
        "_OYYYYO_",
        "O_YYYY_O",
        "___OO___",
        "__O__O__"
      ]))
    else if id == "ghost" then Some(Preset("Geist", [
        "__WWWW__",
        "_WWWWWW_",
        "WW_WW_WW",
        "WWWWWWWW",
        "WWWWWWWW",
        "WWWWWWWW",
        "WWWWWWWW",
        "W_W__W_W"
      ]))
    else if id == "alien" then Some(Preset("Alien", [
        "_G____G_",
        "__G__G__",
        "_GGGGGG_",
        "GG_GG_GG",
        "GGGGGGGG",
        "_GGGGGG_",
        "_G____G_",
        "__G__G__"
      ]))
    else if id == "fire" then Some(Preset("Feuer", [
        "___R____",
        "__RRR___",
        "__RYR___",
        "_RYYYR__",
        "_RYYYR__",
        "ROYYYOR_",
        "ROOYOOR_",
        "_ROOOR__"
      ]))
    else if id == "rainbow" then Some(Preset("Regenbogen", [
        "_RRRRRR_",
        "ROOOOOOR",
        "ROYYYYOR",
        "_OYGGYO_",
        "__YGGY__",
        "___GG___",
        "________",
        "________"
      ]))
    else None
  }

  /** Eight rows of eight palette letters. */
  predicate PaletteGrid(rows: seq<string>) {
    |rows| == GridSize
    && forall y :: 0 <= y < GridSize ==> |rows[y]| == GridSize && forall x :: 0 <= x < GridSize ==> InPalette(rows[y][x])
  }

  lemma HeartIsGrid()
    ensures Presets("heart").Some? && PaletteGrid(Presets("heart").value.rows)
  {
  }

  lemma SmileyIsGrid()
    ensures Presets("smiley").Some? && PaletteGrid(Presets("smiley").value.rows)
  {
  }

  lemma StarIsGrid()
    ensures Presets("star").Some? && PaletteGrid(Presets("star").value.rows)
  {
  }

  lemma SunIsGrid()
    ensures Presets("sun").Some? && PaletteGrid(Presets("sun").value.rows)
  {
  }

  lemma GhostIsGrid()
    ensures Presets("ghost").Some? && PaletteGrid(Presets("ghost").value.rows)
  {
  }

  lemma AlienIsGrid()
    ensures Presets("alien").Some? && PaletteGrid(Presets("alien").value.rows)
  {
  }

  lemma FireIsGrid()
    ensures Presets("fire").Some? && PaletteGrid(Presets("fire").value.rows)
  {
  }

  lemma RainbowIsGrid()
    ensures Presets("rainbow").Some? && PaletteGrid(Presets("rainbow").value.rows)
  {
  }

  /** Exactly the listed ids name a preset, and every preset is an 8x8 grid of palette
      letters. */
  lemma PresetsAreGrids(id: string)
    ensures Presets(id).Some? <==> id in PresetIds
    ensures Presets(id).Some? ==> PaletteGrid(Presets(id).value.rows) && Grid(Pattern(Presets(id).value.rows))
  {
    HeartIsGrid();
    SmileyIsGrid();
    StarIsGrid();
    SunIsGrid();
    GhostIsGrid();
    AlienIsGrid();
    FireIsGrid();
    RainbowIsGrid();
  }

  // ---- Flattening ----

  /** The rows of a grid laid end to end, in row order. */
  function Flatten(rows: seq<seq<Pixel>>): seq<Pixel>
    decreases |rows|
  {
    if rows == [] then [] else Flatten(rows[..|rows| - 1]) + rows[|rows| - 1]
  }

  /** Rows of eight flatten row-major: pixel `(y, x)` lands at `y * 8 + x`. */
  lemma {:induction false} FlattenRowMajor(rows: seq<seq<Pixel>>)
    requires forall y :: 0 <= y < |rows| ==> |rows[y]| == GridSize
    ensures |Flatten(rows)| == |rows| * GridSize
    ensures forall y, x :: 0 <= y < |rows| && 0 <= x < GridSize ==> Flatten(rows)[y * GridSize + x] == rows[y][x]
    decreases |rows|
  {
    if rows != [] {
      var init := rows[..|rows| - 1];
      FlattenRowMajor(init);
      forall y, x | 0 <= y < |rows| && 0 <= x < GridSize
        ensures Flatten(rows)[y * GridSize + x] == rows[y][x]
      {
        if y < |rows| - 1 {
          assert init[y] == rows[y];
          assert y * GridSize + x < |init| * GridSize;
        }
      }
    }
  }

  /** `get_matrix` undoes the flattening of an 8x8 grid. */
  lemma ChunkFlatten(g: seq<seq<Pixel>>)
    requires Grid(g)
    ensures ChunkRows(Flatten(g)) == g
  {
    FlattenRowMajor(g);
    var c := ChunkRows(Flatten(g));
    forall y | 0 <= y < GridSize ensures c[y] == g[y] {
      forall x | 0 <= x < GridSize ensures c[y][x] == g[y][x] {
        assert c[y][x] == Flatten(g)[y * GridSize + x];
      }
    }
  }

  /** The first k rows of `get_matrix` lay end to end as the list's first `8 * k` pixels. */
  lemma {:induction false} FlattenChunkPrefix(flat: seq<Pixel>, k: nat)
    requires k <= GridSize
    ensures Flatten(ChunkRows(flat)[..k]) == flat[..Min(k * GridSize, |flat|)]
    decreases k
  {
    var rows := ChunkRows(flat);
    if k == 0 {
      assert rows[..0] == [];
    } else {
      FlattenChunkPrefix(flat, k - 1);
      assert rows[..k][..k - 1] == rows[..k - 1];
      var lo := Min((k - 1) * GridSize, |flat|);
      var hi := Min(k * GridSize, |flat|);
      assert rows[k - 1] == flat[lo..hi];
      assert flat[..lo] + flat[lo..hi] == flat[..hi];
    }
  }

  /** Flattening `get_matrix` of a list gives back its first 64 pixels. */
  lemma FlattenChunk(flat: seq<Pixel>)
    ensures Flatten(ChunkRows(flat)) == flat[..Min(GridSize * GridSize, |flat|)]
  {
    FlattenChunkPrefix(flat, GridSize);
    assert ChunkRows(flat)[..GridSize] == ChunkRows(flat);
  }

  /** A grid stored by `save_image` and read back by `get_matrix` is the same grid. */
  lemma SaveLoadRoundTrip(g: seq<seq<Pixel>>)
    requires Grid(g)
    ensures Deserialize(Serialize(Flatten(g))) == Some(Flatten(g))
    ensures ChunkRows(Deserialize(Serialize(Flatten(g))).value) == g
  {
    DeserializeSerialize(Flatten(g));
    ChunkFlatten(g);
  }

  /** The name `save_image` stores: the stripped name, or "Unnamed" for a blank one
      ("Unnamed" has no surrounding whitespace, so the second `strip()` keeps it). */
  function StoredName(name: string): string {
    if Strip(name) == [] then "Unnamed" else Strip(name)
  }

  /** A blank or whitespace-only name is stored as "Unnamed"; any other name is stored
      stripped, which leaves it non-empty and without surrounding whitespace. */
  lemma StoredNameSpec(name: string)
    ensures AllSpace(name) ==> StoredName(name) == "Unnamed"
    ensures !AllSpace(name) ==> var stored := StoredName(name);
      stored == Strip(name) && stored != [] && !IsSpace(stored[0]) && !IsSpace(stored[|stored| - 1])
  {
    StripBlankIff(name);
  }

  /** Setting one cell of a grid keeps it a grid and changes that cell only. */
  lemma SetCell(g: seq<seq<Pixel>>, x: int, y: int, p: Pixel)
    requires Grid(g) && InGrid(x) && InGrid(y)
    ensures var h := g[y := g[y][x := p]];
      Grid(h) && h[y][x] == p
      && forall i, j :: 0 <= i < GridSize && 0 <= j < GridSize && (i, j) != (y, x) ==> h[i][j] == g[i][j]
  {
  }

  // ---- The endpoints' grid state ----

  /** How an endpoint fails: an `HTTPException` with its status, or an uncaught
      `ValueError` from `hex_to_rgb` or `IndexError` from a short row. */
  datatype Failure = HttpError(status: int) | ValueError | IndexError

  /** The editor's global `current_pixels`. */
  class EditorState {
    var currentPixels: seq<seq<Pixel>>

    /** At start-up every cell is black. */
    constructor ()
      ensures currentPixels == Blank()
    {
      currentPixels := Blank();
    }

    /** `set_pixel`: coordinates outside 0..7 are a 400 before anything changes; a colour
        that does not parse fails before the grid changes; otherwise only `[y][x]` is set. */
    method SetPixel(x: int, y: int, color: string) returns (o: Outcome<Failure>)
      modifies this
      ensures !(InGrid(x) && InGrid(y)) ==> o == Fail(HttpError(400)) && currentPixels == old(currentPixels)
      ensures InGrid(x) && InGrid(y) && HexToRgb(color).Err? ==>
        o == Fail(ValueError) && currentPixels == old(currentPixels)
      ensures InGrid(x) && InGrid(y) && HexToRgb(color).Ok? && !(y < |old(currentPixels)| && x < |old(currentPixels)[y]|) ==>
        o == Fail(IndexError) && currentPixels == old(currentPixels)
      ensures InGrid(x) && InGrid(y) && HexToRgb(color).Ok? && y < |old(currentPixels)| && x < |old(currentPixels)[y]| ==>
        o == Pass && currentPixels == old(currentPixels)[y := old(currentPixels)[y][x := HexToRgb(color).value]]
      ensures Grid(old(currentPixels)) ==> Grid(currentPixels)
    {
      if !(InGrid(x) && InGrid(y)) {
        return Fail(HttpError(400));
      }
      var rgb := HexToRgb(color);
      if rgb.Err? {
        return Fail(ValueError);
      }
      if !(y < |currentPixels| && x < |currentPixels[y]|) {
        return Fail(IndexError);
      }
      currentPixels := currentPixels[y := currentPixels[y][x := rgb.value]];
      o := Pass;
    }

    /** `clear_grid`: every cell black. */
    method ClearGrid()
      modifies this
      ensures Grid(currentPixels)
      ensures forall y, x :: 0 <= y < GridSize && 0 <= x < GridSize ==> currentPixels[y][x] == BlackPixel
    {
      currentPixels := Blank();
    }

    /** `load_preset`: an unknown id is a 404 and leaves the grid; otherwise the grid is
        the preset, cell for cell. */
    method LoadPreset(id: string) returns (o: Outcome<Failure>)
      modifies this
      ensures Presets(id).None? ==> o == Fail(HttpError(404)) && currentPixels == old(currentPixels)
      ensures Presets(id).Some? ==>
        o == Pass && Grid(currentPixels) && currentPixels == Pattern(Presets(id).value.rows)
    {
      var preset := Presets(id);
      if preset.None? {
        return Fail(HttpError(404));
      }
      PresetsAreGrids(id);
      currentPixels := Pattern(preset.value.rows);
      o := Pass;
    }

    /** `save_image`: the grid is flattened row by row, cell by cell, into a new image
        under the normalised name. */
    method SaveImage(name: string) returns (image: Image)
      ensures fresh(image)
      ensures image.name == StoredName(name)
      ensures image.GetPixels() == Some(Flatten(currentPixels))
      ensures Grid(currentPixels) ==>
        |Flatten(currentPixels)| == GridSize * GridSize && image.GetMatrix() == Some(currentPixels)
    {
      var flat: seq<Pixel> := [];
      var y := 0;
      while y < |currentPixels|
        invariant 0 <= y <= |currentPixels|
        invariant flat == Flatten(currentPixels[..y])
      {
        var row := currentPixels[y];
        var x := 0;
        while x < |row|
          invariant 0 <= x <= |row|
          invariant flat == Flatten(currentPixels[..y]) + row[..x]
        {
          flat := flat + [row[x]];
          TakeSnoc(row, x);
          x := x + 1;
        }
        assert row[..x] == row;
        assert currentPixels[..y + 1][..y] == currentPixels[..y];
        y := y + 1;
      }
      assert currentPixels[..y] == currentPixels;
      image := new Image(StoredName(name));
      image.SetPixels(flat);
      if Grid(currentPixels) {
        SaveLoadRoundTrip(currentPixels);
        FlattenRowMajor(currentPixels);
      }
    }

    /** `load_image`: a missing image is a 404; otherwise the grid becomes the image's
        `get_matrix`, eight rows that are short when the stored list is. */
    method LoadImage(found: Image?) returns (o: Outcome<Failure>)
      modifies this
      ensures found == null ==> o == Fail(HttpError(404)) && currentPixels == old(currentPixels)
      ensures found != null && found.GetPixels().None? ==> o == Fail(ValueError) && currentPixels == old(currentPixels)
      ensures found != null && found.GetPixels().Some? ==>
        o == Pass && currentPixels == ChunkRows(found.GetPixels().value)
    {
      if found == null {
        return Fail(HttpError(404));
      }
      var matrix := found.GetMatrix();
      if matrix.None? {
        return Fail(ValueError);
      }
      currentPixels := matrix.value;
      o := Pass;
    }
  }
}
