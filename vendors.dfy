/** The vendor registry: Bluetooth SIG company identifiers (the Assigned Numbers list)
    and the lookups that name the vendor of a device. */
module Vendors {
  import opened Wrappers
  import opened Hex

  /** A Bluetooth SIG company identifier, an unsigned 16-bit number. */
  type VendorId = n: int | 0 <= n < 0x1_0000

  /** Manufacturer Specific Data of one advertisement, split by company identifier, in
      the order the scanner reports the entries. */
  type ManufacturerData = seq<(VendorId, seq<Byte>)>

  const AppleId: VendorId := 0x004C

  /** A representative part of the registry (the source lists 273 entries); it keeps the
      source's spelling, including the 0xAEF0 entry whose name is a placeholder text. */
  function CompanyIdentifiers(id: int): Option<string> {
    match id
    case 0x0000 => Some("Ericsson Technology Licensing")
    case 0x0002 => Some("Intel Corp.")
    case 0x0006 => Some("Microsoft")
    case 0x000D => Some("Texas Instruments Inc.")
    case 0x000F => Some("Broadcom Corporation")
    case 0x004C => Some("Apple, Inc.")
    case 0x0059 => Some("Nordic Semiconductor ASA")
    case 0x0075 => Some("Samsung Electronics Co. Ltd.")
    case 0x0087 => Some("Garmin International, Inc.")
    case 0x009E => Some("Bose Corporation")
    case 0x00C4 => Some("LG Electronics")
    case 0x00E0 => Some("Google")
    case 0x00F9 => Some("Xiaomi Inc.")
    case 0x0131 => Some("Huawei Technologies Co., Ltd.")
    case 0x0157 => Some("Tile, Inc.")
    case 0x0171 => Some("Amazon.com Services, Inc.")
    case 0x02E5 => Some("Sonos, Inc.")
    case 0x0499 => Some("Ruuvi Innovations Ltd.")
    case 0x0822 => Some("IKEA of Sweden")
    case 0x0D8A => Some("Nothing Technology Limited")
    case 0xAEF0 => Some("Unknown (ID: 0xAEF0)")
    case _ => None
  }

  const PlaceholderPrefix := "Unknown (ID: 0x"

  /** `f"Unknown (ID: 0x{company_id:04X})"`. */
  function Placeholder(id: VendorId): string {
    PlaceholderPrefix + Format(id, 4, true) + ")"
  }

  /** `get_manufacturer_name`: the registry entry, or the placeholder. */
  function ManufacturerName(id: VendorId): string {
    match CompanyIdentifiers(id)
    case Some(name) => name
    case None => Placeholder(id)
  }

  /** `get_device_manufacturer`: the first identifier in the data with its name, or
      (0xFFFF, "Unknown") when the device sent no manufacturer data. */
  function DeviceManufacturer(data: ManufacturerData): (VendorId, string) {
    if data != [] then (data[0].0, ManufacturerName(data[0].0)) else (0xFFFF, "Unknown")
  }

  /** The placeholder carries the identifier as exactly four upper-case hex digits. */
  lemma PlaceholderEncodesId(id: VendorId)
    ensures var p := Placeholder(id);
      |p| == 20 && p[..15] == PlaceholderPrefix && p[19] == ')'
      && AllDigitsOfCase(p[15..19], true) && Value(p[15..19]) == id
  {
    assert Pow16(4) == 0x1_0000;
    FormatFixedWidth(id, 4, true);
    var p := Placeholder(id);
    assert p[15..19] == Format(id, 4, true);
  }

  /** Distinct identifiers never share a placeholder. */
  lemma PlaceholderInjective(a: VendorId, b: VendorId)
    requires Placeholder(a) == Placeholder(b)
    ensures a == b
  {
    PlaceholderEncodesId(a);
    PlaceholderEncodesId(b);
  }

  /** The lookup is total: a registered identifier gives its entry, any other one the
      placeholder from which the identifier can be read back. */
  lemma ManufacturerNameSpec(id: VendorId)
    ensures CompanyIdentifiers(id).Some? ==> ManufacturerName(id) == CompanyIdentifiers(id).value
    ensures CompanyIdentifiers(id).None? ==>
      var n := ManufacturerName(id);
      |n| == 20 && n[..15] == PlaceholderPrefix && Value(n[15..19]) == id
  {
    PlaceholderEncodesId(id);
  }

  /** No identifier is named plain "Unknown": the registry has no such entry and every
      placeholder is longer. */
  lemma ManufacturerNameNotUnknown(id: VendorId)
    ensures ManufacturerName(id) != "Unknown"
  {
    if CompanyIdentifiers(id).None? {
      PlaceholderEncodesId(id);
    }
  }

  /** A device is attributed to "Unknown" (under id 0xFFFF) exactly when it sent no
      manufacturer data; otherwise to the name of its first reported company id. */
  lemma DeviceManufacturerUnknownIff(data: ManufacturerData)
    ensures DeviceManufacturer(data).1 == "Unknown" <==> data == []
    ensures data == [] ==> DeviceManufacturer(data).0 == 0xFFFF
    ensures data != [] ==> DeviceManufacturer(data) == (data[0].0, ManufacturerName(data[0].0))
  {
    if data != [] {
      ManufacturerNameNotUnknown(data[0].0);
    }
  }

  /** The registry's 0xAEF0 entry reads the same as the fallback for an unregistered id. */
  lemma RegistryEntryAEF0IsPlaceholderText()
    ensures ManufacturerName(0xAEF0) == Placeholder(0xAEF0)
  {
    assert PaddedDigits(0xA, 1, true) == "A";
    assert PaddedDigits(0xAE, 2, true) == "AE";
    assert PaddedDigits(0xAEF, 3, true) == "AEF";
    assert Format(0xAEF0, 4, true) == "AEF0";
  }
}
