/** The controller of the Witti Dotti 8x8 LED matrix: the command bytes it sends over
    the write characteristic and the 8x8 pixel buffer it keeps in step with the device.
    The radio is abstracted to a `connected` flag and a log `sent` of the written
    payloads; a method that raises in the library returns `Fail` here. */
module Dotti {
  import opened Wrappers
  import opened Sorting

  const GridSize := 8
  const TotalPixels := 64
  const SlotCount := 8

  /** An `(r, g, b)` tuple. */
  datatype Rgb = Rgb(r: int, g: int, b: int)

  const Black := Rgb(0, 0, 0)
  const White := Rgb(255, 255, 255)

  /** `ValueError` for a bad argument, `RuntimeError` from `_write` when not connected. */
  datatype Error = ValueError | NotConnected

  predicate InGrid(v: int) {
    0 <= v < GridSize
  }

  predicate IsByte(v: int) {
    0 <= v < 256
  }

  /** `max(0, min(hi, v))` */
  function Clamp(v: int, hi: nat): (c: int)
    ensures 0 <= c <= hi
    ensures 0 <= v <= hi ==> c == v
    ensures v < 0 ==> c == 0
    ensures v > hi ==> c == hi
  {
    if v < 0 then 0 else if v > hi then hi else v
  }

  function ClampColor(c: Rgb): (k: Rgb)
    ensures IsByte(k.r) && IsByte(k.g) && IsByte(k.b)
    ensures IsByte(c.r) && IsByte(c.g) && IsByte(c.b) ==> k == c
  {
    Rgb(Clamp(c.r, 255), Clamp(c.g, 255), Clamp(c.b, 255))
  }

  // ---- The command protocol ----

  datatype Command =
    | PixelCmd(x: int, y: int, color: Rgb)
    | FillCmd(color: Rgb)
    | BrightnessCmd(level: int)
    | SaveCmd(slot: int)
    | LoadCmd(slot: int)

  /** The arguments the methods hand to `bytes([...])` after their checks and clamps. */
  predicate WellFormed(c: Command) {
    match c
    case PixelCmd(x, y, color) => InGrid(x) && InGrid(y) && ClampColor(color) == color
    case FillCmd(color) => ClampColor(color) == color
    case BrightnessCmd(level) => 0 <= level <= 100
    case SaveCmd(slot) => 0 <= slot < SlotCount
    case LoadCmd(slot) => 0 <= slot < SlotCount
  }

  /** The payload written for a command; the pixel index is 1-based, row-major. */
  function Encode(c: Command): seq<int> {
    match c
    case PixelCmd(x, y, color) => [0x07, 0x02, y * GridSize + x + 1, color.r, color.g, color.b]
    case FillCmd(color) => [0x06, 0x01, color.r, color.g, color.b]
    case BrightnessCmd(level) => [0x06, 0x02, level]
    case SaveCmd(slot) => [0x06, 0x06, slot]
    case LoadCmd(slot) => [0x06, 0x05, slot]
  }

  /** Reads a payload back as the command it encodes, if it encodes one. */
  function Decode(data: seq<int>): (r: Option<Command>)
    ensures r.Some? ==> WellFormed(r.value)
  {
    var bytes := forall i :: 0 <= i < |data| ==> IsByte(data[i]);
    if !bytes || |data| < 3 then None
    else if |data| == 6 && data[0] == 0x07 && data[1] == 0x02 && 1 <= data[2] <= TotalPixels then
      Some(PixelCmd((data[2] - 1) % GridSize, (data[2] - 1) / GridSize, Rgb(data[3], data[4], data[5])))
    else if |data| == 5 && data[0] == 0x06 && data[1] == 0x01 then
      Some(FillCmd(Rgb(data[2], data[3], data[4])))
    else if |data| == 3 && data[0] == 0x06 && data[1] == 0x02 && data[2] <= 100 then
      Some(BrightnessCmd(data[2]))
    else if |data| == 3 && data[0] == 0x06 && data[1] == 0x06 && data[2] < SlotCount then
      Some(SaveCmd(data[2]))
    else if |data| == 3 && data[0] == 0x06 && data[1] == 0x05 && data[2] < SlotCount then
      Some(LoadCmd(data[2]))
    else None
  }

  /** A well-formed command is written as bytes, the pixel index lies in 1..64, and the
      payload identifies the command. */
  lemma EncodeDecode(c: Command)
    requires WellFormed(c)
    ensures forall i :: 0 <= i < |Encode(c)| ==> IsByte(Encode(c)[i])
    ensures c.PixelCmd? ==> 1 <= Encode(c)[2] <= TotalPixels
    ensures Decode(Encode(c)) == Some(c)
  {
    if c.PixelCmd? {
      var n := c.y * GridSize + c.x;
      assert (n + 1 - 1) % GridSize == c.x && (n + 1 - 1) / GridSize == c.y;
    }
  }

  /** Every payload that decodes is the encoding of what it decodes to. */
  lemma DecodeEncode(data: seq<int>)
    requires Decode(data).Some?
    ensures Encode(Decode(data).value) == data
  {
    var c := Decode(data).value;
    if c.PixelCmd? {
      assert (data[2] - 1) / GridSize * GridSize + (data[2] - 1) % GridSize + 1 == data[2];
    }
  }

  /** `set_pixel_by_index`: the indexes 0..63 are the grid cells, row-major, and the
      command's 1-based index byte is the index plus one. */
  lemma IndexCoordinates(index: int)
    ensures 0 <= index < TotalPixels <==> InGrid(index % GridSize) && InGrid(index / GridSize) && index >= 0
    ensures 0 <= index < TotalPixels ==>
      (index / GridSize) * GridSize + index % GridSize == index
      && Encode(PixelCmd(index % GridSize, index / GridSize, Black))[2] == index + 1
  {
  }

  /** The payloads `set_row(row, colors)` writes, in order. */
  function RowCommands(row: int, colors: seq<Rgb>): (cs: seq<seq<int>>)
    ensures |cs| == |colors|
  {
    seq(|colors|, x requires 0 <= x < |colors| => Encode(PixelCmd(x, row, ClampColor(colors[x]))))
  }

  /** The payloads `set_column(col, colors)` writes, in order. */
  function ColumnCommands(col: int, colors: seq<Rgb>): (cs: seq<seq<int>>)
    ensures |cs| == |colors|
  {
    seq(|colors|, y requires 0 <= y < |colors| => Encode(PixelCmd(col, y, ClampColor(colors[y]))))
  }

  /** The index of the first row of `matrix` whose length is not 8, or `|matrix|`. */
  function FirstBadRow(matrix: seq<seq<Rgb>>): (k: nat)
    ensures k <= |matrix|
    ensures forall i :: 0 <= i < k ==> |matrix[i]| == GridSize
    ensures k < |matrix| ==> |matrix[k]| != GridSize
    decreases |matrix|
  {
    if matrix == [] || |matrix[0]| != GridSize then 0
    else 1 + FirstBadRow(matrix[1..])
  }

  /** The payloads of the first k rows of `set_matrix`, row after row. */
  function MatrixCommands(matrix: seq<seq<Rgb>>, k: nat): (cs: seq<seq<int>>)
    requires k <= |matrix|
    decreases k
  {
    if k == 0 then [] else MatrixCommands(matrix, k - 1) + RowCommands(k - 1, matrix[k - 1])
  }

  /** Every payload `set_matrix` sends is a well-formed pixel command. */
  lemma {:induction false} MatrixCommandsDecode(matrix: seq<seq<Rgb>>, k: nat)
    requires k <= |matrix| && k <= GridSize
    requires forall i :: 0 <= i < k ==> |matrix[i]| == GridSize
    ensures forall n :: 0 <= n < |MatrixCommands(matrix, k)| ==>
      Decode(MatrixCommands(matrix, k)[n]).Some? && Decode(MatrixCommands(matrix, k)[n]).value.PixelCmd?
    ensures |MatrixCommands(matrix, k)| == k * GridSize
    decreases k
  {
    if k > 0 {
      MatrixCommandsDecode(matrix, k - 1);
      var row := RowCommands(k - 1, matrix[k - 1]);
      forall x | 0 <= x < |row| ensures Decode(row[x]).Some? && Decode(row[x]).value.PixelCmd? {
        EncodeDecode(PixelCmd(x, k - 1, ClampColor(matrix[k - 1][x])));
      }
    }
  }

  /** The controller state: the device address, the link, the payloads written so far
      and the `_pixel_buffer`, indexed `[y, x]`. */
  class Controller {
    var address: Option<string>
    var connected: bool
    var sent: seq<seq<int>>
    const buffer: array2<Rgb>

    predicate Valid() {
      buffer.Length0 == GridSize && buffer.Length1 == GridSize
    }

    /** A new controller is disconnected, has written nothing and holds a black buffer. */
    constructor (address: Option<string>)
      ensures Valid() && fresh(buffer)
      ensures this.address == address && !connected && sent == []
      ensures forall y, x :: 0 <= y < GridSize && 0 <= x < GridSize ==> buffer[y, x] == Black
    {
      this.address := address;
      connected := false;
      sent := [];
      buffer := new Rgb[GridSize, GridSize]((y, x) => Black);
    }

    /** `connect`: already connected is success; without an address the first device
        `found` by the scan is selected (none found is failure); `linkUp` is what the
        radio connection attempt gives. */
    method Connect(found: seq<string>, linkUp: bool) returns (ok: bool)
      modifies this
      ensures sent == old(sent)
      ensures old(connected) ==> ok && connected && address == old(address)
      ensures !old(connected) && old(address).Some? && old(address).value != "" ==>
        address == old(address) && ok == linkUp && connected == linkUp
      ensures !old(connected) && (old(address).None? || old(address).value == "") && found == [] ==>
        !ok && !connected && address == old(address)
      ensures !old(connected) && (old(address).None? || old(address).value == "") && found != [] ==>
        address == Some(found[0]) && ok == linkUp && connected == linkUp
    {
      if connected {
        return true;
      }
      if address.None? || address.value == "" {
        if found == [] {
          return false;
        }
        address := Some(found[0]);
      }
      connected := linkUp;
      ok := linkUp;
    }

    /** `disconnect` */
    method Disconnect()
      modifies this
      ensures !connected && address == old(address) && sent == old(sent)
    {
      connected := false;
    }

    /** `_write`: the payload is sent when connected; otherwise `RuntimeError`. */
    method Write(data: seq<int>) returns (o: Outcome<Error>)
      modifies this
      ensures connected == old(connected) && address == old(address)
      ensures old(connected) ==> o == Pass && sent == old(sent) + [data]
      ensures !old(connected) ==> o == Fail(NotConnected) && sent == old(sent)
    {
      if !connected {
        return Fail(NotConnected);
      }
      sent := sent + [data];
      o := Pass;
    }

    /** `set_pixel`: bad coordinates fail before anything is written; otherwise the
        clamped colour is sent and, once the write succeeded, stored at `[y, x]` only. */
    method SetPixel(x: int, y: int, r: int, g: int, b: int) returns (o: Outcome<Error>)
      requires Valid()
      modifies this, buffer
      ensures Valid() && connected == old(connected) && address == old(address)
      ensures !(InGrid(x) && InGrid(y)) ==> o == Fail(ValueError) && sent == old(sent)
      ensures InGrid(x) && InGrid(y) && !old(connected) ==> o == Fail(NotConnected) && sent == old(sent)
      ensures InGrid(x) && InGrid(y) && old(connected) ==>
        o == Pass && sent == old(sent) + [Encode(PixelCmd(x, y, ClampColor(Rgb(r, g, b))))]
      ensures forall i, j :: 0 <= i < GridSize && 0 <= j < GridSize ==>
        buffer[i, j] == if o.Pass? && i == y && j == x then ClampColor(Rgb(r, g, b)) else old(buffer[i, j])
    {
      if !(InGrid(x) && InGrid(y)) {
        return Fail(ValueError);
      }
      var color := ClampColor(Rgb(r, g, b));
      o := Write(Encode(PixelCmd(x, y, color)));
      if o.Fail? {
        return;
      }
      buffer[y, x] := color;
    }

    /** `set_pixel_by_index`: only 0..63, as `set_pixel(index % 8, index // 8, ...)`. */
    method SetPixelByIndex(index: int, r: int, g: int, b: int) returns (o: Outcome<Error>)
      requires Valid()
      modifies this, buffer
      ensures Valid() && connected == old(connected) && address == old(address)
      ensures !(0 <= index < TotalPixels) ==> o == Fail(ValueError) && sent == old(sent)
      ensures 0 <= index < TotalPixels && !old(connected) ==> o == Fail(NotConnected) && sent == old(sent)
      ensures 0 <= index < TotalPixels && old(connected) ==>
        o == Pass && sent == old(sent) + [Encode(PixelCmd(index % GridSize, index / GridSize, ClampColor(Rgb(r, g, b))))]
      ensures forall i, j :: 0 <= i < GridSize && 0 <= j < GridSize ==>
        buffer[i, j] == if o.Pass? && i * GridSize + j == index then ClampColor(Rgb(r, g, b)) else old(buffer[i, j])
    {
      if !(0 <= index < TotalPixels) {
        return Fail(ValueError);
      }
      o := SetPixel(index % GridSize, index / GridSize, r, g, b);
    }

    /** `set_all_pixels`: one fill command with the clamped colour, then every cell. */
    method SetAllPixels(r: int, g: int, b: int) returns (o: Outcome<Error>)
      requires Valid()
      modifies this, buffer
      ensures Valid() && connected == old(connected) && address == old(address)
      ensures old(connected) ==> o == Pass && sent == old(sent) + [Encode(FillCmd(ClampColor(Rgb(r, g, b))))]
      ensures !old(connected) ==> o == Fail(NotConnected) && sent == old(sent)
      ensures forall i, j :: 0 <= i < GridSize && 0 <= j < GridSize ==>
        buffer[i, j] == if o.Pass? then ClampColor(Rgb(r, g, b)) else old(buffer[i, j])
    {
      var color := ClampColor(Rgb(r, g, b));
      o := Write(Encode(FillCmd(color)));
      if o.Fail? {
        return;
      }
      for y := 0 to GridSize
        modifies buffer
        invariant forall i, j :: 0 <= i < GridSize && 0 <= j < GridSize ==>
          buffer[i, j] == if i < y then color else old(buffer[i, j])
      {
        for x := 0 to GridSize
          modifies buffer
          invariant forall i, j :: 0 <= i < GridSize && 0 <= j < GridSize ==>
            buffer[i, j] == if i < y || (i == y && j < x) then color else old(buffer[i, j])
        {
          buffer[y, x] := color;
        }
      }
    }

    /** `turn_off`: every cell black. */
    method TurnOff() returns (o: Outcome<Error>)
      requires Valid()
      modifies this, buffer
      ensures Valid() && connected == old(connected) && address == old(address)
      ensures old(connected) ==> o == Pass && sent == old(sent) + [[0x06, 0x01, 0, 0, 0]]
      ensures !old(connected) ==> o == Fail(NotConnected) && sent == old(sent)
      ensures forall i, j :: 0 <= i < GridSize && 0 <= j < GridSize ==>
        buffer[i, j] == if o.Pass? then Black else old(buffer[i, j])
    {
      o := SetAllPixels(0, 0, 0);
    }

    /** `turn_on`: every cell white. */
    method TurnOn() returns (o: Outcome<Error>)
      requires Valid()
      modifies this, buffer
      ensures Valid() && connected == old(connected) && address == old(address)
      ensures old(connected) ==> o == Pass && sent == old(sent) + [[0x06, 0x01, 255, 255, 255]]
      ensures !old(connected) ==> o == Fail(NotConnected) && sent == old(sent)
      ensures forall i, j :: 0 <= i < GridSize && 0 <= j < GridSize ==>
        buffer[i, j] == if o.Pass? then White else old(buffer[i, j])
    {
      o := SetAllPixels(255, 255, 255);
    }

    /** `set_brightness`: the level clamped into 0..100; the buffer is untouched. */
    method SetBrightness(level: int) returns (o: Outcome<Error>)
      modifies this
      ensures connected == old(connected) && address == old(address)
      ensures old(connected) ==> o == Pass && sent == old(sent) + [Encode(BrightnessCmd(Clamp(level, 100)))]
      ensures !old(connected) ==> o == Fail(NotConnected) && sent == old(sent)
    {
      o := Write(Encode(BrightnessCmd(Clamp(level, 100))));
    }

    /** `save_to_slot`: only slots 0..7; the buffer is untouched. */
    method SaveToSlot(slot: int) returns (o: Outcome<Error>)
      modifies this
      ensures connected == old(connected) && address == old(address)
      ensures !(0 <= slot < SlotCount) ==> o == Fail(ValueError) && sent == old(sent)
      ensures 0 <= slot < SlotCount && old(connected) ==> o == Pass && sent == old(sent) + [Encode(SaveCmd(slot))]
      ensures 0 <= slot < SlotCount && !old(connected) ==> o == Fail(NotConnected) && sent == old(sent)
    {
      if !(0 <= slot < SlotCount) {
        return Fail(ValueError);
      }
      o := Write(Encode(SaveCmd(slot)));
    }

    /** `load_from_slot`: only slots 0..7; the buffer is untouched. */
    method LoadFromSlot(slot: int) returns (o: Outcome<Error>)
      modifies this
      ensures connected == old(connected) && address == old(address)
      ensures !(0 <= slot < SlotCount) ==> o == Fail(ValueError) && sent == old(sent)
      ensures 0 <= slot < SlotCount && old(connected) ==> o == Pass && sent == old(sent) + [Encode(LoadCmd(slot))]
      ensures 0 <= slot < SlotCount && !old(connected) ==> o == Fail(NotConnected) && sent == old(sent)
    {
      if !(0 <= slot < SlotCount) {
        return Fail(ValueError);
      }
      o := Write(Encode(LoadCmd(slot)));
    }

    /** The `set_pixel` loop over one row of eight colours, shared by `set_row` and
        `set_matrix`: it stops at the first failing write, which can only be the first. */
    method WriteRow(row: int, colors: seq<Rgb>) returns (o: Outcome<Error>)
      requires Valid() && InGrid(row) && |colors| == GridSize
      modifies this, buffer
      ensures Valid() && connected == old(connected) && address == old(address)
      ensures old(connected) ==> o == Pass && sent == old(sent) + RowCommands(row, colors)
      ensures !old(connected) ==> o == Fail(NotConnected) && sent == old(sent)
      ensures forall i, j :: 0 <= i < GridSize && 0 <= j < GridSize ==>
        buffer[i, j] == if o.Pass? && i == row then ClampColor(colors[j]) else old(buffer[i, j])
    {
      o := Pass;
      var x := 0;
      while x < GridSize
        invariant 0 <= x <= GridSize && o == Pass
        invariant connected == old(connected) && address == old(address)
        invariant x > 0 ==> connected
        invariant sent == old(sent) + RowCommands(row, colors)[..x]
        invariant forall i, j :: 0 <= i < GridSize && 0 <= j < GridSize ==>
          buffer[i, j] == if i == row && j < x then ClampColor(colors[j]) else old(buffer[i, j])
      {
        var c := colors[x];
        o := SetPixel(x, row, c.r, c.g, c.b);
        if o.Fail? {
          return;
        }
        TakeSnoc(RowCommands(row, colors), x);
        x := x + 1;
      }
    }

    /** `set_row`: a bad row or a colour count other than 8 fails before any write. */
    method SetRow(row: int, colors: seq<Rgb>) returns (o: Outcome<Error>)
      requires Valid()
      modifies this, buffer
      ensures Valid() && connected == old(connected) && address == old(address)
      ensures !(InGrid(row) && |colors| == GridSize) ==> o == Fail(ValueError) && sent == old(sent)
      ensures InGrid(row) && |colors| == GridSize && old(connected) ==>
        o == Pass && sent == old(sent) + RowCommands(row, colors)
      ensures InGrid(row) && |colors| == GridSize && !old(connected) ==>
        o == Fail(NotConnected) && sent == old(sent)
      ensures forall i, j :: 0 <= i < GridSize && 0 <= j < GridSize ==>
        buffer[i, j] == if o.Pass? && i == row then ClampColor(colors[j]) else old(buffer[i, j])
    {
      if !InGrid(row) || |colors| != GridSize {
        return Fail(ValueError);
      }
      o := WriteRow(row, colors);
    }

    /** `set_column`: a bad column or a colour count other than 8 fails before any write. */
    method SetColumn(col: int, colors: seq<Rgb>) returns (o: Outcome<Error>)
      requires Valid()
      modifies this, buffer
      ensures Valid() && connected == old(connected) && address == old(address)
      ensures !(InGrid(col) && |colors| == GridSize) ==> o == Fail(ValueError) && sent == old(sent)
      ensures InGrid(col) && |colors| == GridSize && old(connected) ==>
        o == Pass && sent == old(sent) + ColumnCommands(col, colors)
      ensures InGrid(col) && |colors| == GridSize && !old(connected) ==>
        o == Fail(NotConnected) && sent == old(sent)
      ensures forall i, j :: 0 <= i < GridSize && 0 <= j < GridSize ==>
        buffer[i, j] == if o.Pass? && j == col then ClampColor(colors[i]) else old(buffer[i, j])
    {
      if !InGrid(col) || |colors| != GridSize {
        return Fail(ValueError);
      }
      o := Pass;
      var y := 0;
      while y < GridSize
        invariant 0 <= y <= GridSize && o == Pass
        invariant connected == old(connected) && address == old(address)
        invariant y > 0 ==> connected
        invariant sent == old(sent) + ColumnCommands(col, colors)[..y]
        invariant forall i, j :: 0 <= i < GridSize && 0 <= j < GridSize ==>
          buffer[i, j] == if j == col && i < y then ClampColor(colors[i]) else old(buffer[i, j])
      {
        var c := colors[y];
        o := SetPixel(col, y, c.r, c.g, c.b);
        if o.Fail? {
          return;
        }
        TakeSnoc(ColumnCommands(col, colors), y);
        y := y + 1;
      }
    }

    /** `set_matrix`: a row count other than 8 fails up front; a row of the wrong length
        fails only when it is reached, after the rows before it have been written. */
    method SetMatrix(matrix: seq<seq<Rgb>>) returns (o: Outcome<Error>)
      requires Valid()
      modifies this, buffer
      ensures Valid() && connected == old(connected) && address == old(address)
      ensures |matrix| != GridSize ==> o == Fail(ValueError) && sent == old(sent)
      ensures |matrix| == GridSize && !old(connected) ==>
        o == (if FirstBadRow(matrix) == 0 then Fail(ValueError) else Fail(NotConnected))
        && sent == old(sent)
      ensures |matrix| == GridSize && old(connected) ==>
        o == (if FirstBadRow(matrix) < GridSize then Fail(ValueError) else Pass)
        && sent == old(sent) + MatrixCommands(matrix, FirstBadRow(matrix))
      ensures forall i, j :: 0 <= i < GridSize && 0 <= j < GridSize ==>
        buffer[i, j] == if |matrix| == GridSize && old(connected) && i < FirstBadRow(matrix)
          then ClampColor(matrix[i][j]) else old(buffer[i, j])
    {
      if |matrix| != GridSize {
        return Fail(ValueError);
      }
      ghost var k := FirstBadRow(matrix);
      o := Pass;
      var y := 0;
      while y < GridSize
        invariant 0 <= y <= GridSize && y <= k && o == Pass
        invariant connected == old(connected) && address == old(address)
        invariant y > 0 ==> connected
        invariant sent == old(sent) + MatrixCommands(matrix, y)
        invariant forall i, j :: 0 <= i < GridSize && 0 <= j < GridSize ==>
          buffer[i, j] == if i < y then ClampColor(matrix[i][j]) else old(buffer[i, j])
      {
        if |matrix[y]| != GridSize {
          return Fail(ValueError);
        }
        o := WriteRow(y, matrix[y]);
        if o.Fail? {
          return;
        }
        y := y + 1;
      }
    }
  }
}
