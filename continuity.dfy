/** The decoder for Apple's Continuity advertisements: the payload of Apple's (0x004C)
    Manufacturer Specific Data is a sequence of type/length/value messages, each
    rendered as a short description. The format is reverse-engineered, not a standard. */
module Continuity {
  import opened Wrappers
  import opened Hex
  import opened Text

  /** Names of the message types (`APPLE_CONTINUITY_TYPES`). */
  function ContinuityTypes(key: int): Option<string> {
    match key
    case 0x01 => Some("AirPrint")
    case 0x02 => Some("AirDrop")
    case 0x03 => Some("HomeKit")
    case 0x05 => Some("AirDrop")
    case 0x06 => Some("HomeKit")
    case 0x07 => Some("AirPods / Proximity Pairing")
    case 0x08 => Some("Hey Siri")
    case 0x09 => Some("AirPlay Target")
    case 0x0A => Some("AirPlay Source")
    case 0x0B => Some("MagicSwitch")
    case 0x0C => Some("Handoff")
    case 0x0D => Some("Tethering Target")
    case 0x0E => Some("Tethering Source")
    case 0x0F => Some("Nearby Action")
    case 0x10 => Some("Nearby Info")
    case 0x12 => Some("FindMy (AirTag/Device)")
    case 0x13 => Some("FindMy Accessory")
    case 0x14 => Some("FindMy Location")
    case 0x16 => Some("AirPods Pairing")
    case _ => None
  }

  /** Nearby Action (0x0F) subtypes (`APPLE_NEARBY_ACTIONS`). */
  function NearbyActions(key: int): Option<string> {
    match key
    case 0x01 => Some("Apple TV Setup")
    case 0x04 => Some("Mobile Backup")
    case 0x05 => Some("Watch Setup")
    case 0x06 => Some("Apple TV Pairing")
    case 0x07 => Some("Internet Tethering")
    case 0x08 => Some("Wi-Fi Password")
    case 0x09 => Some("iOS Setup")
    case 0x0A => Some("Repair")
    case 0x0B => Some("Speaker Setup")
    case 0x0C => Some("Apple Pay")
    case 0x0D => Some("Whole Home Audio Setup")
    case 0x0E => Some("Developer Tools")
    case 0x0F => Some("Answered Call")
    case 0x10 => Some("Ended Call")
    case 0x11 => Some("DD Ping")
    case 0x12 => Some("DD Pong")
    case 0x13 => Some("Remote Auto Fill")
    case 0x14 => Some("Companion Link")
    case 0x15 => Some("Remote Management")
    case 0x16 => Some("Remote Auto Fill Pong")
    case 0x17 => Some("Remote Display")
    case _ => None
  }

  /** FindMy status hints (`FINDMY_STATUS`). */
  function FindMyStatus(key: int): Option<string> {
    match key
    case 0x00 => Some("Owned")
    case 0x01 => Some("Shared")
    case 0x02 => Some("Owned (maintained)")
    case 0x03 => Some("Separated")
    case 0x04 => Some("Unknown")
    case _ => None
  }

  /** Nearby Info (0x10) activity codes. */
  function Activities(key: int): Option<string> {
    match key
    case 0x01 => Some("Activity: Off")
    case 0x03 => Some("Activity: Idle")
    case 0x05 => Some("Activity: Audio")
    case 0x07 => Some("Activity: Screen On")
    case 0x09 => Some("Activity: Screen On (video)")
    case 0x0A => Some("Activity: Watch On Wrist")
    case 0x0B => Some("Activity: Recent Call")
    case 0x0D => Some("Activity: Active Call")
    case 0x11 => Some("Activity: Home Screen")
    case 0x13 => Some("Activity: Using Device")
    case 0x17 => Some("Activity: Driving")
    case 0x18 => Some("Activity: Transportation")
    case 0x1A => Some("Activity: Navigation")
    case 0x1B => Some("Activity: Workout")
    case 0x1C => Some("Activity: Siri")
    case _ => None
  }

  /** Proximity Pairing (0x07) model identifiers. */
  function DeviceModels(key: int): Option<string> {
    match key
    case 0x0220 => Some("AirPods")
    case 0x0320 => Some("Powerbeats3")
    case 0x0520 => Some("BeatsX")
    case 0x0620 => Some("AirPods Pro")
    case 0x0A20 => Some("AirPods Max")
    case 0x0E20 => Some("AirPods Pro 2")
    case 0x1020 => Some("Beats Fit Pro")
    case 0x1220 => Some("AirPods 3")
    case 0x1420 => Some("AirPods Pro 2 (USB-C)")
    case _ => None
  }

  const Separator := " | "

  /** One type/length/value message; the length byte is |body|. */
  datatype Message = Message(msgType: Byte, body: seq<Byte>)

  /** `f"... 0x{code:02X}"`-style fallback names. */
  function TypeName(t: Byte): string {
    match ContinuityTypes(t)
    case Some(name) => name
    case None => "Unknown (0x" + Format(t, 2, true) + ")"
  }

  function FindMyStatusName(status: int): string {
    match FindMyStatus(status)
    case Some(name) => name
    case None => "Unknown"
  }

  function ActivityName(code: Byte): string {
    match Activities(code)
    case Some(name) => name
    case None => "Activity: 0x" + Format(code, 2, true)
  }

  function ActionName(code: Byte): string {
    match NearbyActions(code)
    case Some(name) => name
    case None => "Action 0x" + Format(code, 2, true)
  }

  function ModelName(modelId: int): string {
    match DeviceModels(modelId)
    case Some(name) => name
    case None => "Audio Device (0x" + Format(modelId, 4, true) + ")"
  }

  /** The description of one message, dispatching on its type as the decoder's
      if/elif chain does; `b >> 6` on a byte is written b / 64 and `(b0 << 8) | b1`
      on two bytes is b0 * 256 + b1. */
  function Describe(msgType: Byte, body: seq<Byte>): string {
    if msgType == 0x12 then
      if |body| >= 1 then "FindMy Device (" + FindMyStatusName(body[0] / 64) + ")" else "FindMy Device"
    else if msgType == 0x10 then
      if |body| >= 1 then "Nearby Info - " + ActivityName(body[0]) else "Nearby Info"
    else if msgType == 0x07 then
      if |body| >= 2 then ModelName(body[0] as int * 256 + body[1] as int) else "AirPods / Audio Device"
    else if msgType == 0x09 then "AirPlay Target (Apple TV/HomePod)"
    else if msgType == 0x0C then "Handoff Active"
    else if msgType == 0x0F then
      if |body| >= 1 then "Nearby Action: " + ActionName(body[0]) else "Nearby Action"
    else if msgType == 0x16 then "AirPods/Beats (Pairing Mode)"
    else if msgType == 0x02 || msgType == 0x05 then "AirDrop"
    else TypeName(msgType)
  }

  /** A remainder the walk cannot read: no full header, or a body running past the end. */
  predicate Truncated(rest: seq<Byte>) {
    |rest| < 2 || 2 + rest[1] > |rest|
  }

  /** Every body fits in a length byte. */
  predicate Encodable(ms: seq<Message>) {
    forall i :: 0 <= i < |ms| ==> |ms[i].body| < 256
  }

  /** The type/length/value walk: messages left to right until the rest is truncated. */
  function Parse(data: seq<Byte>): seq<Message>
    decreases |data|
  {
    if Truncated(data) then []
    else [Message(data[0], data[2..2 + data[1]])] + Parse(data[2 + data[1]..])
  }

  /** The bytes of a message sequence: type, length, body, for each message in turn. */
  function Encode(ms: seq<Message>): seq<Byte>
    requires Encodable(ms)
  {
    if ms == [] then []
    else [ms[0].msgType, |ms[0].body| as Byte] + ms[0].body + Encode(ms[1..])
  }

  /** One description per message, in message order. */
  function Descriptions(ms: seq<Message>): (ds: seq<string>)
    ensures |ds| == |ms|
    ensures forall i :: 0 <= i < |ms| ==> ds[i] == Describe(ms[i].msgType, ms[i].body)
  {
    if ms == [] then [] else [Describe(ms[0].msgType, ms[0].body)] + Descriptions(ms[1..])
  }

  /** What `decode_apple_advertising` returns: None for fewer than two bytes or when no
      message could be read, otherwise the descriptions joined by " | ". */
  function Decoded(data: seq<Byte>): Option<string> {
    if |data| < 2 then None
    else
      var ds := Descriptions(Parse(data));
      if ds == [] then None else Some(Join(ds, Separator))
  }

  /** One step of the walk at `offset`: the message there, then the walk after it. */
  lemma ParseStep(data: seq<Byte>, offset: nat)
    requires offset <= |data| && !Truncated(data[offset..])
    ensures var len := data[offset + 1];
      offset + 2 + len <= |data|
      && Parse(data[offset..])
         == [Message(data[offset], data[offset + 2..offset + 2 + len])] + Parse(data[offset + 2 + len..])
  {
    var rest := data[offset..];
    var len := data[offset + 1];
    assert rest[2..2 + len] == data[offset + 2..offset + 2 + len];
    assert rest[2 + len..] == data[offset + 2 + len..];
  }

  /** The walk reads nothing exactly when the input is truncated from the start. */
  lemma ParseEmptyIff(data: seq<Byte>)
    ensures Parse(data) == [] <==> Truncated(data)
  {
  }

  /** The walk's progress: messages read so far, then the walk from `offset`, is the whole walk. */
  lemma WalkStep(data: seq<Byte>, offset: nat, read: seq<Message>)
    requires offset <= |data| && !Truncated(data[offset..])
    requires read + Parse(data[offset..]) == Parse(data)
    ensures var len := data[offset + 1];
      offset + 2 + len <= |data|
      && (read + [Message(data[offset], data[offset + 2..offset + 2 + len])]) + Parse(data[offset + 2 + len..])
         == Parse(data)
  {
    ParseStep(data, offset);
    var len := data[offset + 1];
    var m := Message(data[offset], data[offset + 2..offset + 2 + len]);
    var later := Parse(data[offset + 2 + len..]);
    assert read + [m] + later == read + ([m] + later);
  }

  /** Appending a message appends its description. */
  lemma {:induction false} DescriptionsSnoc(ms: seq<Message>, m: Message)
    ensures Descriptions(ms + [m]) == Descriptions(ms) + [Describe(m.msgType, m.body)]
    decreases |ms|
  {
    if ms != [] {
      assert (ms + [m])[1..] == ms[1..] + [m];
      DescriptionsSnoc(ms[1..], m);
    }
  }

  /** `decode_apple_advertising`: the while loop over `offset`, appending to `details`. */
  method DecodeAppleAdvertising(data: seq<Byte>) returns (r: Option<string>)
    ensures r == Decoded(data)
  {
    if |data| < 2 {
      return None;
    }
    var details: seq<string> := [];
    ghost var read: seq<Message> := [];
    var offset := 0;
    while offset < |data|
      invariant 0 <= offset <= |data|
      invariant read + Parse(data[offset..]) == Parse(data)
      invariant details == Descriptions(read)
      decreases |data| - offset
    {
      if offset + 2 > |data| {
        break;
      }
      var msgType := data[offset];
      var msgLen := data[offset + 1];
      if offset + 2 + msgLen > |data| {
        break;
      }
      var msgData := data[offset + 2..offset + 2 + msgLen];
      WalkStep(data, offset, read);
      DescriptionsSnoc(read, Message(msgType, msgData));
      read := read + [Message(msgType, msgData)];
      details := details + [Describe(msgType, msgData)];
      offset := offset + 2 + msgLen;
    }
    ParseEmptyIff(data[offset..]);
    assert read == Parse(data);
    r := if details == [] then None else Some(Join(details, Separator));
  }

  /** Every message the walk reads has a body that fits a length byte. */
  lemma {:induction false} ParseEncodable(data: seq<Byte>)
    ensures Encodable(Parse(data))
    decreases |data|
  {
    if !Truncated(data) {
      var rest := data[2 + data[1]..];
      ParseEncodable(rest);
      var ms := Parse(data);
      assert ms[0].body == data[2..2 + data[1]];
      assert ms[1..] == Parse(rest);
      forall i | 0 <= i < |ms|
        ensures |ms[i].body| < 256
      {
        if i > 0 {
          assert ms[i] == Parse(rest)[i - 1];
        }
      }
    }
  }

  /** The walk reads a prefix of its input, and what it leaves unread is truncated. */
  lemma {:induction false} EncodeParse(data: seq<Byte>)
    ensures Encodable(Parse(data))
    ensures var e := Encode(Parse(data));
      |e| <= |data| && e == data[..|e|] && Truncated(data[|e|..])
    decreases |data|
  {
    ParseEncodable(data);
    if Truncated(data) {
      assert data[0..] == data;
    } else {
      var len := data[1];
      var rest := data[2 + len..];
      EncodeParse(rest);
      var ms := Parse(data);
      assert ms[0] == Message(data[0], data[2..2 + len]) && ms[1..] == Parse(rest);
      var head := [data[0], len] + data[2..2 + len];
      assert data == head + rest;
      PrefixExtend(head, rest, Encode(Parse(rest)));
    }
  }

  lemma PrefixExtend(head: seq<Byte>, rest: seq<Byte>, prefix: seq<Byte>)
    requires |prefix| <= |rest| && prefix == rest[..|prefix|]
    ensures var e := head + prefix;
      |e| <= |head + rest| && e == (head + rest)[..|e|] && (head + rest)[|e|..] == rest[|prefix|..]
  {
  }

  /** Encoded messages followed by any truncated remainder read back as those messages:
      the walk stops cleanly at the remainder and keeps everything before it. */
  lemma {:induction false} ParseEncode(ms: seq<Message>, tail: seq<Byte>)
    requires Encodable(ms) && Truncated(tail)
    ensures Parse(Encode(ms) + tail) == ms
    decreases |ms|
  {
    if ms == [] {
      assert Encode(ms) + tail == tail;
    } else {
      var m := ms[0];
      assert Encodable(ms[1..]) by {
        forall i | 0 <= i < |ms[1..]|
          ensures |ms[1..][i].body| < 256
        {
          assert ms[1..][i] == ms[i + 1];
        }
      }
      var rest := Encode(ms[1..]) + tail;
      var d := Encode(ms) + tail;
      assert d == [m.msgType, |m.body| as Byte] + m.body + rest;
      assert d[2..2 + |m.body|] == m.body;
      assert d[2 + |m.body|..] == rest;
      ParseEncode(ms[1..], tail);
    }
  }

  /** No description contains the bar of the separator. */
  lemma DescribeNoBar(t: Byte, body: seq<Byte>)
    ensures '|' !in Describe(t, body)
  {
    if t in {0x12, 0x10} {
      DecodedTypesNoBar1(t, body);
    } else if t in {0x07, 0x0F} {
      DecodedTypesNoBar2(t, body);
    } else {
      OtherTypesNoBar(t, body);
    }
  }

  lemma DecodedTypesNoBar1(t: Byte, body: seq<Byte>)
    requires t in {0x12, 0x10}
    ensures '|' !in Describe(t, body)
  {
    if |body| >= 1 {
      FindMyStatusNameNoBar(body[0] / 64);
      ActivityNameNoBar(body[0]);
    }
  }

  lemma DecodedTypesNoBar2(t: Byte, body: seq<Byte>)
    requires t in {0x07, 0x0F}
    ensures '|' !in Describe(t, body)
  {
    if |body| >= 2 {
      ModelNameNoBar(body[0] as int * 256 + body[1] as int);
    }
    if |body| >= 1 {
      ActionNameNoBar(body[0]);
    }
  }

  lemma OtherTypesNoBar(t: Byte, body: seq<Byte>)
    requires t !in {0x12, 0x10, 0x07, 0x0F}
    ensures '|' !in Describe(t, body)
  {
    TypeNameNoBar(t);
  }

  lemma TypeNameNoBar(t: Byte)
    ensures '|' !in TypeName(t)
  {
    ContinuityTypesNoBar(t);
    FormatNoBar(t, 2, true);
  }

  lemma FindMyStatusNameNoBar(status: int)
    ensures '|' !in FindMyStatusName(status)
  {
  }

  lemma ActivityNameNoBar(code: Byte)
    ensures '|' !in ActivityName(code)
  {
    ActivitiesNoBar(code);
    FormatNoBar(code, 2, true);
  }

  lemma ActionNameNoBar(code: Byte)
    ensures '|' !in ActionName(code)
  {
    NearbyActionsNoBar(code);
    FormatNoBar(code, 2, true);
  }

  lemma ModelNameNoBar(modelId: int)
    ensures '|' !in ModelName(modelId)
  {
    DeviceModelsNoBar(modelId);
    FormatNoBar(modelId, 4, true);
  }

  /** No name in the table contains a bar. */
  lemma ContinuityTypesNoBar(key: int)
    ensures ContinuityTypes(key).Some? ==> '|' !in ContinuityTypes(key).value
  {
    if key < 0x08 {
      ContinuityTypesNoBar1(key);
    } else if key < 0x0E {
      ContinuityTypesNoBar2(key);
    } else {
      ContinuityTypesNoBar3(key);
    }
  }

  lemma ContinuityTypesNoBar1(key: int)
    requires key < 0x08
    ensures ContinuityTypes(key).Some? ==> '|' !in ContinuityTypes(key).value
  {
  }

  lemma ContinuityTypesNoBar2(key: int)
    requires 0x08 <= key && key < 0x0E
    ensures ContinuityTypes(key).Some? ==> '|' !in ContinuityTypes(key).value
  {
  }

  lemma ContinuityTypesNoBar3(key: int)
    requires 0x0E <= key
    ensures ContinuityTypes(key).Some? ==> '|' !in ContinuityTypes(key).value
  {
  }

  /** No name in the table contains a bar. */
  lemma NearbyActionsNoBar(key: int)
    ensures NearbyActions(key).Some? ==> '|' !in NearbyActions(key).value
  {
    if key < 0x08 {
      NearbyActionsNoBar1(key);
    } else if key < 0x0F {
      NearbyActionsNoBar2(key);
    } else {
      NearbyActionsNoBar3(key);
    }
  }

  lemma NearbyActionsNoBar1(key: int)
    requires key < 0x08
    ensures NearbyActions(key).Some? ==> '|' !in NearbyActions(key).value
  {
  }

  lemma NearbyActionsNoBar2(key: int)
    requires 0x08 <= key && key < 0x0F
    ensures NearbyActions(key).Some? ==> '|' !in NearbyActions(key).value
  {
  }

  lemma NearbyActionsNoBar3(key: int)
    requires 0x0F <= key
    ensures NearbyActions(key).Some? ==> '|' !in NearbyActions(key).value
  {
  }

  /** No name in the table contains a bar. */
  lemma ActivitiesNoBar(key: int)
    ensures Activities(key).Some? ==> '|' !in Activities(key).value
  {
    if key < 0x0B {
      ActivitiesNoBar1(key);
    } else if key < 0x18 {
      ActivitiesNoBar2(key);
    } else {
      ActivitiesNoBar3(key);
    }
  }

  lemma ActivitiesNoBar1(key: int)
    requires key < 0x0B
    ensures Activities(key).Some? ==> '|' !in Activities(key).value
  {
  }

  lemma ActivitiesNoBar2(key: int)
    requires 0x0B <= key && key < 0x18
    ensures Activities(key).Some? ==> '|' !in Activities(key).value
  {
  }

  lemma ActivitiesNoBar3(key: int)
    requires 0x18 <= key
    ensures Activities(key).Some? ==> '|' !in Activities(key).value
  {
  }

  /** No name in the table contains a bar. */
  lemma DeviceModelsNoBar(key: int)
    ensures DeviceModels(key).Some? ==> '|' !in DeviceModels(key).value
  {
    if key < 0x0A20 {
      DeviceModelsNoBar1(key);
    } else {
      DeviceModelsNoBar2(key);
    }
  }

  lemma DeviceModelsNoBar1(key: int)
    requires key < 0x0A20
    ensures DeviceModels(key).Some? ==> '|' !in DeviceModels(key).value
  {
  }

  lemma DeviceModelsNoBar2(key: int)
    requires 0x0A20 <= key
    ensures DeviceModels(key).Some? ==> '|' !in DeviceModels(key).value
  {
  }

  lemma FormatNoBar(n: int, width: nat, upper: bool)
    ensures '|' !in Format(n, width, upper)
  {
    FormatShape(n, width, upper);
    var f := Format(n, width, upper);
    if n < 0 {
      assert f == [f[0]] + f[1..];
      DigitsNoBar(f[1..], upper);
    } else {
      DigitsNoBar(f, upper);
    }
  }

  lemma DigitsNoBar(s: string, upper: bool)
    requires AllDigitsOfCase(s, upper)
    ensures '|' !in s
  {
  }

  /** None exactly when no complete message was read; otherwise splitting the text at
      " | " gives back one description per message, in payload order. */
  lemma DecodedShape(data: seq<Byte>)
    ensures Decoded(data) == None <==> Parse(data) == []
    ensures Decoded(data).Some? ==> Split(Decoded(data).value, Separator) == Descriptions(Parse(data))
  {
    var ms := Parse(data);
    if ms != [] {
      var ds := Descriptions(ms);
      forall p | p in ds
        ensures Separator[1] !in p
      {
        var i :| 0 <= i < |ds| && ds[i] == p;
        DescribeNoBar(ms[i].msgType, ms[i].body);
      }
      SplitJoin(ds, Separator);
    }
  }

  /** Complete messages followed by a truncated remainder (a lone trailing byte, or a
      body running past the end) decode to the descriptions of the complete messages. */
  lemma DecodedKeepsCompleteMessages(ms: seq<Message>, tail: seq<Byte>)
    requires Encodable(ms) && ms != [] && Truncated(tail)
    ensures Decoded(Encode(ms) + tail) == Some(Join(Descriptions(ms), Separator))
  {
    ParseEncode(ms, tail);
  }

  /** FindMy: the status is the top two bits of the first body byte, so it is always one
      of the four named hints and the "Unknown" fallback is never used. */
  lemma FindMyDescription(body: seq<Byte>)
    ensures |body| == 0 ==> Describe(0x12, body) == "FindMy Device"
    ensures |body| >= 1 ==>
      var hint := ["Owned", "Shared", "Owned (maintained)", "Separated"][body[0] / 64];
      Describe(0x12, body) == "FindMy Device (" + hint + ")"
  {
  }

  /** Nearby Info: a known activity code gives its name; any other code is written as two
      upper-case hex digits that read back as the code. */
  lemma NearbyInfoDescription(body: seq<Byte>)
    ensures |body| == 0 ==> Describe(0x10, body) == "Nearby Info"
    ensures |body| >= 1 && Activities(body[0]).Some? ==>
      Describe(0x10, body) == "Nearby Info - " + Activities(body[0]).value
    ensures |body| >= 1 && Activities(body[0]).None? ==>
      var d := Describe(0x10, body);
      |d| == 28 && d[..26] == "Nearby Info - Activity: 0x"
      && AllDigitsOfCase(d[26..], true) && Value(d[26..]) == body[0]
  {
    if |body| >= 1 {
      assert Pow16(2) == 256;
      FormatFixedWidth(body[0], 2, true);
    }
  }

  /** Nearby Action: the same shape as Nearby Info, over the action table. */
  lemma NearbyActionDescription(body: seq<Byte>)
    ensures |body| == 0 ==> Describe(0x0F, body) == "Nearby Action"
    ensures |body| >= 1 && NearbyActions(body[0]).Some? ==>
      Describe(0x0F, body) == "Nearby Action: " + NearbyActions(body[0]).value
    ensures |body| >= 1 && NearbyActions(body[0]).None? ==>
      var d := Describe(0x0F, body);
      |d| == 26 && d[..24] == "Nearby Action: Action 0x"
      && AllDigitsOfCase(d[24..], true) && Value(d[24..]) == body[0]
  {
    if |body| >= 1 {
      assert Pow16(2) == 256;
      FormatFixedWidth(body[0], 2, true);
    }
  }

  /** Proximity Pairing: the model id is the first two body bytes read big-endian; an
      unknown model is written as four hex digits whose first pair reads back the first
      byte and whose second pair reads back the second. */
  lemma ProximityDescription(body: seq<Byte>)
    ensures |body| < 2 ==> Describe(0x07, body) == "AirPods / Audio Device"
    ensures |body| >= 2 && DeviceModels(body[0] as int * 256 + body[1] as int).Some? ==>
      Describe(0x07, body) == DeviceModels(body[0] as int * 256 + body[1] as int).value
    ensures |body| >= 2 && DeviceModels(body[0] as int * 256 + body[1] as int).None? ==>
      var d := Describe(0x07, body);
      |d| == 21 && d[..16] == "Audio Device (0x" && d[20] == ')'
      && AllDigitsOfCase(d[16..20], true)
      && Value(d[16..18]) == body[0] && Value(d[18..20]) == body[1]
  {
    if |body| >= 2 && DeviceModels(body[0] as int * 256 + body[1] as int).None? {
      var id := body[0] as int * 256 + body[1] as int;
      assert Pow16(2) == 256;
      assert Pow16(4) == 0x1_0000;
      FormatFixedWidth(id, 4, true);
      var h := Format(id, 4, true);
      var d := Describe(0x07, body);
      assert d == "Audio Device (0x" + h + ")";
      assert d[16..20] == h && d[16..18] == h[..2] && d[18..20] == h[2..];
      assert h == h[..2] + h[2..];
      ValueConcat(h[..2], h[2..]);
      ValueBound(h[..2]);
      ValueBound(h[2..]);
    }
  }

  /** AirPlay Target, Handoff, AirPods Pairing and AirDrop have fixed labels: the body
      is not read at all. */
  lemma FixedLabels(t: Byte, body: seq<Byte>, other: seq<Byte>)
    requires t in {0x09, 0x0C, 0x16, 0x02, 0x05}
    ensures Describe(t, body) == Describe(t, other)
  {
  }

  /** Every other type is described by its table name, or by a placeholder carrying the
      type as two upper-case hex digits. */
  lemma OtherTypeDescription(t: Byte, body: seq<Byte>)
    requires t !in {0x12, 0x10, 0x07, 0x09, 0x0C, 0x0F, 0x16, 0x02, 0x05}
    ensures ContinuityTypes(t).Some? ==> Describe(t, body) == ContinuityTypes(t).value
    ensures ContinuityTypes(t).None? ==>
      var d := Describe(t, body);
      |d| == 14 && d[..11] == "Unknown (0x" && d[13] == ')'
      && AllDigitsOfCase(d[11..13], true) && Value(d[11..13]) == t
  {
    assert Pow16(2) == 256;
    FormatFixedWidth(t, 2, true);
  }

  /** A description depends on at most the first two body bytes. */
  lemma DescribeReadsTwoBytes(t: Byte, body: seq<Byte>)
    ensures Describe(t, body) == Describe(t, body[..if |body| < 2 then |body| else 2])
  {
  }

  /** A FindMy message whose status bits are 0b11. */
  lemma ExampleFindMySeparated()
    ensures Decoded([0x12, 0x01, 0xC0]) == Some("FindMy Device (Separated)")
  {
    var ms := [Message(0x12, [0xC0])];
    assert Encode(ms) + [] == [0x12, 0x01, 0xC0];
    ParseEncode(ms, []);
    assert Describe(0x12, [0xC0]) == "FindMy Device (" + "Separated" + ")";
    assert "FindMy Device (" + "Separated" + ")" == "FindMy Device (Separated)";
  }

  /** A Nearby Info message announcing a workout. */
  lemma ExampleNearbyInfoWorkout()
    ensures Decoded([0x10, 0x01, 0x1B]) == Some("Nearby Info - Activity: Workout")
  {
    var ms := [Message(0x10, [0x1B])];
    assert Encode(ms) + [] == [0x10, 0x01, 0x1B];
    ParseEncode(ms, []);
    WorkoutLabel();
  }

  lemma WorkoutLabel()
    ensures Describe(0x10, [0x1B]) == "Nearby Info - Activity: Workout"
  {
    assert Describe(0x10, [0x1B]) == "Nearby Info - " + "Activity: Workout";
  }

  /** A Proximity Pairing message for model 0x0220. */
  lemma ExampleAirPods()
    ensures Decoded([0x07, 0x02, 0x02, 0x20]) == Some("AirPods")
  {
    var ms := [Message(0x07, [0x02, 0x20])];
    assert Encode(ms) + [] == [0x07, 0x02, 0x02, 0x20];
    ParseEncode(ms, []);
  }

  /** Two empty messages: Handoff, then type 0x09, which has its own fixed label. */
  lemma ExampleHandoffAndAirPlay()
    ensures Decoded([0x0C, 0x00, 0x09, 0x00])
         == Some("Handoff Active" + Separator + "AirPlay Target (Apple TV/HomePod)")
  {
    var ms := [Message(0x0C, []), Message(0x09, [])];
    assert Encode(ms[1..]) == [0x09, 0x00];
    assert Encode(ms) + [] == [0x0C, 0x00, 0x09, 0x00];
    ParseEncode(ms, []);
    var ds := ["Handoff Active", "AirPlay Target (Apple TV/HomePod)"];
    assert Descriptions(ms) == ds;
    assert Join(ds[1..], Separator) == "AirPlay Target (Apple TV/HomePod)";
  }

  /** A body running past the end stops the walk before any message is read. */
  lemma ExampleTruncatedBody()
    ensures Decoded([0x10, 0x05, 0x01, 0x02]) == None
    ensures Decoded([0x10]) == None
  {
  }
}
