/** The stored images of the pixel editor: an image keeps its 64 pixels as a JSON list of
    `[r, g, b]` lists, and reads them back either flat or as an 8x8 matrix. JSON is
    modelled as its value tree; the text form is not. */
module Database {
  import opened Wrappers

  const RowLength := 8
  const RowCount := 8

  /** A `[r, g, b]` list. */
  datatype Pixel = Pixel(r: int, g: int, b: int)

  /** A JSON value as far as the stored pixels use it: numbers and lists. */
  datatype Json = JNum(n: int) | JList(items: seq<Json>)

  function PixelToJson(p: Pixel): Json {
    JList([JNum(p.r), JNum(p.g), JNum(p.b)])
  }

  function JsonToPixel(j: Json): (p: Option<Pixel>)
    ensures p.Some? <==> j.JList? && |j.items| == 3 && j.items[0].JNum? && j.items[1].JNum? && j.items[2].JNum?
  {
    if j.JList? && |j.items| == 3 && j.items[0].JNum? && j.items[1].JNum? && j.items[2].JNum? then
      Some(Pixel(j.items[0].n, j.items[1].n, j.items[2].n))
    else None
  }

  function EncodeAll(ps: seq<Pixel>): (js: seq<Json>)
    ensures |js| == |ps|
    decreases |ps|
  {
    if ps == [] then [] else [PixelToJson(ps[0])] + EncodeAll(ps[1..])
  }

  function DecodeAll(js: seq<Json>): (ps: Option<seq<Pixel>>)
    ensures ps.Some? ==> |ps.value| == |js|
    decreases |js|
  {
    if js == [] then Some([])
    else match (JsonToPixel(js[0]), DecodeAll(js[1..]))
      case (Some(p), Some(rest)) => Some([p] + rest)
      case _ => None
  }

  /** `json.dumps` of a pixel list, as a value. */
  function Serialize(ps: seq<Pixel>): Json {
    JList(EncodeAll(ps))
  }

  /** `json.loads` read back as a pixel list; anything else is `None`. */
  function Deserialize(j: Json): Option<seq<Pixel>> {
    if j.JList? then DecodeAll(j.items) else None
  }

  lemma {:induction false} DecodeEncodeAll(ps: seq<Pixel>)
    ensures DecodeAll(EncodeAll(ps)) == Some(ps)
    decreases |ps|
  {
    if ps != [] {
      DecodeEncodeAll(ps[1..]);
      assert EncodeAll(ps)[1..] == EncodeAll(ps[1..]);
      assert [ps[0]] + ps[1..] == ps;
    }
  }

  lemma {:induction false} EncodeDecodeAll(js: seq<Json>)
    requires DecodeAll(js).Some?
    ensures EncodeAll(DecodeAll(js).value) == js
    decreases |js|
  {
    if js != [] {
      var ps := DecodeAll(js).value;
      EncodeDecodeAll(js[1..]);
      assert ps[1..] == DecodeAll(js[1..]).value;
      assert PixelToJson(ps[0]) == js[0];
      assert [js[0]] + js[1..] == js;
    }
  }

  /** `json.loads(json.dumps(ps)) == ps` */
  lemma DeserializeSerialize(ps: seq<Pixel>)
    ensures Deserialize(Serialize(ps)) == Some(ps)
  {
    DecodeEncodeAll(ps);
  }

  /** A stored value that reads back as pixels is exactly what storing those pixels gives. */
  lemma SerializeDeserialize(j: Json)
    requires Deserialize(j).Some?
    ensures Serialize(Deserialize(j).value) == j
  {
    EncodeDecodeAll(j.items);
  }

  /** Every pixel list reads back from what storing it produces. */
  lemma DeserializeSerializeAll()
    ensures forall ps :: Deserialize(Serialize(ps)) == Some(ps)
  {
    forall ps ensures Deserialize(Serialize(ps)) == Some(ps) {
      DeserializeSerialize(ps);
    }
  }

  function Min(a: int, b: int): int {
    if a < b then a else b
  }

  /** Python's `s[lo:hi]` for non-negative bounds: both are clamped to the length. */
  function Slice<T>(s: seq<T>, lo: nat, hi: nat): (r: seq<T>)
    requires lo <= hi
    ensures |r| == Min(hi, |s|) - Min(lo, |s|)
    ensures forall k :: 0 <= k < |r| ==> r[k] == s[lo + k]
  {
    s[Min(lo, |s|)..Min(hi, |s|)]
  }

  /** `get_matrix` on the flat list: eight rows of eight, taken in order. */
  function ChunkRows(flat: seq<Pixel>): (rows: seq<seq<Pixel>>)
    ensures |rows| == RowCount
    ensures forall i :: 0 <= i < RowCount ==>
      |rows[i]| == Min(RowLength, if |flat| > i * RowLength then |flat| - i * RowLength else 0)
    ensures forall i, j :: 0 <= i < RowCount && 0 <= j < |rows[i]| ==>
      i * RowLength + j < |flat| && rows[i][j] == flat[i * RowLength + j]
  {
    seq(RowCount, i requires 0 <= i < RowCount => Slice(flat, i * RowLength, (i + 1) * RowLength))
  }

  /** A list of 64 gives eight full rows; a shorter one never fails, and the rows past its
      end are empty. */
  lemma ChunkRowsShape(flat: seq<Pixel>)
    ensures |flat| >= RowCount * RowLength ==> forall i :: 0 <= i < RowCount ==> |ChunkRows(flat)[i]| == RowLength
    ensures forall i :: 0 <= i < RowCount && |flat| <= i * RowLength ==> ChunkRows(flat)[i] == []
    ensures forall i :: 0 <= i < RowCount && i * RowLength < |flat| < (i + 1) * RowLength ==>
      ChunkRows(flat)[i] == flat[i * RowLength..]
  {
    forall i | 0 <= i < RowCount && i * RowLength < |flat| < (i + 1) * RowLength
      ensures ChunkRows(flat)[i] == flat[i * RowLength..]
    {
      assert |ChunkRows(flat)[i]| == |flat| - i * RowLength;
    }
  }

  /** A row of the database: a name and the stored pixel list (`None` until
      `set_pixels` runs). */
  class Image {
    var name: string
    var pixels: Option<Json>

    constructor (name: string)
      ensures this.name == name && pixels == None
    {
      this.name := name;
      pixels := None;
    }

    /** `get_pixels`: the pixel list whose `json.dumps` is the stored value, if any. */
    function GetPixels(): (ps: Option<seq<Pixel>>)
      reads this
      ensures ps.Some? ==> pixels == Some(Serialize(ps.value))
      ensures forall qs :: pixels == Some(Serialize(qs)) ==> ps == Some(qs)
    {
      DeserializeSerializeAll();
      if pixels.Some? && Deserialize(pixels.value).Some? then
        SerializeDeserialize(pixels.value);
        Deserialize(pixels.value)
      else None
    }

    /** `get_matrix`: eight rows read off the stored list in row-major order. */
    function GetMatrix(): (m: Option<seq<seq<Pixel>>>)
      reads this
      ensures m.Some? <==> GetPixels().Some?
      ensures m.Some? ==> |m.value| == RowCount && forall i :: 0 <= i < RowCount ==> |m.value[i]| <= RowLength
      ensures m.Some? ==> forall i, j :: 0 <= i < RowCount && 0 <= j < |m.value[i]| ==>
        i * RowLength + j < |GetPixels().value| && m.value[i][j] == GetPixels().value[i * RowLength + j]
    {
      match GetPixels()
      case Some(flat) => Some(ChunkRows(flat))
      case None => None
    }

    /** `set_pixels`: afterwards `get_pixels` returns the same list. */
    method SetPixels(ps: seq<Pixel>)
      modifies this
      ensures name == old(name) && pixels == Some(Serialize(ps))
      ensures GetPixels() == Some(ps)
    {
      pixels := Some(Serialize(ps));
      DeserializeSerialize(ps);
    }
  }
}
