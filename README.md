# Dotti BLE tools: a verified Dafny model

This project models the core logic of a small Python toolkit for Bluetooth Low Energy
devices and for the Witti Dotti 8x8 LED matrix. Dafny proves the properties listed below.

- **Continuity decoder** (`continuity.dfy`). `decode_apple_advertising` walks the
  type/length/value messages in Apple's Manufacturer Specific Data. Each message is
  rendered as a short description, and the descriptions are joined by `" | "`.
  - The walk is an imperative method.
  - It is proved equal to a pure specification built from three parts: `Parse` (the
    message walk), `Describe` (the `if/elif` chain) and `Decoded` (the result).
- **Vendor lookups** (`vendors.dfy`). These are `get_manufacturer_name` and
  `get_device_manufacturer`, over a part of the Bluetooth SIG company-identifier registry.
- **Device catalog** (`catalog.dfy`). This is the block of `scan_devices` that works on
  the scan result:
  - the name filter;
  - the three listing orders;
  - grouping by manufacturer with a `defaultdict`;
  - the group order, with "Unknown" last;
  - the per-group sort by signal strength.

  Python's stable `list.sort` is modelled as a stable insertion sort (`sorting.dfy`).
- **Dotti controller** (`dotti.dfy`). Class `Dotti` is modelled as `Controller`:
  - the 8x8 pixel buffer, an `array2`;
  - the connected flag;
  - the payloads written to the device, a log;
  - every pixel, fill, brightness and slot command.

  The commands are encoded from a `Command` datatype, and a decoder reads them back.
- **Pixel editor** (`editor.dfy`, `database.dfy`). This is the grid state of the web
  editor:
  - the colour-string conversions `hex_to_rgb` and `rgb_to_hex`;
  - the `set_pixel`, `clear_grid`, `load_preset` and `load_image` updates of
    `current_pixels`, and `save_image`, which reads it;
  - the row-major flattening;
  - `Image.get_matrix`, `get_pixels` and `set_pixels`.

Helpers: `hex.dfy` holds Python's `02x`/`02X`/`04X` formatting and `int(s, 16)` digit
values. `text.dfy` holds `strip`, `lstrip`, ASCII `lower`, substring search, string
order, and `join`/`split`.

Type 0x09 has its own branch in the decoder (ble_scanner.py:430-431). So the payload
`[0x0C, 0x00, 0x09, 0x00]` decodes to `"Handoff Active | AirPlay Target (Apple TV/HomePod)"`,
as `Continuity.ExampleHandoffAndAirPlay` proves.

## Model

| member | source | states |
|---|---|---|
| Continuity.DecodeAppleAdvertising | ble_scanner.py:357-449 | The `while` loop over the payload returns exactly `Decoded(data)`. That is: `None` for fewer than 2 bytes or when no message is complete; otherwise the descriptions of the complete messages in payload order, joined by `" \| "`. |
| Continuity.ParseStep | ble_scanner.py:365-375 | When the rest of the payload has a full header and body, the walk reads the message there (type byte, length byte, body) and continues after its body. |
| Continuity.ParseEmptyIff | ble_scanner.py:366-373 | No message can be read exactly when the remainder has fewer than 2 bytes or declares a body running past the end. |
| Continuity.WalkStep | ble_scanner.py:365-447 | One iteration of the loop keeps the messages read so far plus the walk of the rest equal to the walk of the whole payload, and the next offset stays in bounds. |
| Continuity.DescriptionsSnoc | ble_scanner.py:377-445 | Appending a message appends its description: `details` grows by one entry per message. |
| Continuity.Descriptions | ble_scanner.py:377-445 | One description per message, in message order, each being that message's `Describe`. `Continuity.Describe` is the `if/elif` chain of ble_scanner.py:377-445; the per-type lemmas below specify it. |
| Continuity.ParseEncodable | ble_scanner.py:370-375 | Every body the walk reads has fewer than 256 bytes, because its length came from one byte. |
| Continuity.EncodeParse | ble_scanner.py:365-375 | Re-encoding the parsed messages gives a prefix of the payload, and the bytes after it are a truncated remainder. So the walk drops only an incomplete tail. |
| Continuity.ParseEncode | ble_scanner.py:365-375 | For messages with bodies under 256 bytes, followed by any truncated tail, the walk returns exactly those messages: the TLV round trip. |
| Continuity.DecodedShape | ble_scanner.py:449 | `None` exactly when no message was read; otherwise splitting the result on `" \| "` gives back the list of descriptions, one per message. |
| Continuity.DecodedKeepsCompleteMessages | ble_scanner.py:365-449 | Complete messages followed by a truncated tail decode to the join of their descriptions. The tail is ignored. |
| Continuity.DescribeNoBar | ble_scanner.py:377-445 | No description contains the bar character, whatever the type and body, so the separator is unambiguous. |
| Continuity.TypeNameNoBar | ble_scanner.py:300-320 | No type name or `Unknown (0xNN)` fallback contains the bar character. |
| Continuity.ActivityNameNoBar | ble_scanner.py:391-408 | No activity name or `Activity: 0xNN` fallback contains the bar character. |
| Continuity.ActionNameNoBar | ble_scanner.py:323-345 | No nearby-action name or `Action 0xNN` fallback contains the bar character. |
| Continuity.ModelNameNoBar | ble_scanner.py:413-426 | No device-model name or `Audio Device (0xNNNN)` fallback contains the bar character. |
| Continuity.FindMyStatusNameNoBar | ble_scanner.py:348-354 | No FindMy status name or `Unknown` fallback contains the bar character. |
| Continuity.FormatNoBar | ble_scanner.py:377 | Hex formatting never produces the bar character. |
| Continuity.FindMyDescription | ble_scanner.py:380-386 | Type 0x12: `FindMy Device` for an empty body; otherwise `FindMy Device (<status>)` with the status chosen by the top two bits of the first byte. |
| Continuity.NearbyInfoDescription | ble_scanner.py:387-411 | Type 0x10: `Nearby Info` for an empty body, the table activity when the first byte is listed, and otherwise `Activity: 0x` followed by two upper-case hex digits whose value is that byte. |
| Continuity.NearbyActionDescription | ble_scanner.py:434-439 | Type 0x0F: `Nearby Action` for an empty body, the table action when listed, and otherwise `Action 0x` followed by two upper-case hex digits equal to the first byte. |
| Continuity.ProximityDescription | ble_scanner.py:412-429 | Type 0x07: the generic label for a body under 2 bytes, the table model for a known big-endian model id, and otherwise `Audio Device (0x` + four upper-case hex digits (high byte, low byte) + `)`. |
| Continuity.FixedLabels | ble_scanner.py:430-443 | Types 0x09, 0x0C, 0x16, 0x02 and 0x05 render a constant label, whatever the body. |
| Continuity.OtherTypeDescription | ble_scanner.py:444-445 | Every other type renders its table name, or `Unknown (0x` + two upper-case hex digits equal to the type + `)`. |
| Continuity.DescribeReadsTwoBytes | ble_scanner.py:380-445 | A description depends on at most the first two body bytes. |
| Continuity.ExampleFindMySeparated | ble_scanner.py:380-384 | `[0x12, 0x01, 0xC0]` decodes to `FindMy Device (Separated)`. |
| Continuity.ExampleNearbyInfoWorkout | ble_scanner.py:387-409 | `[0x10, 0x01, 0x1B]` decodes to `Nearby Info - Activity: Workout`. |
| Continuity.ExampleAirPods | ble_scanner.py:412-427 | `[0x07, 0x02, 0x02, 0x20]` decodes to `AirPods`. |
| Continuity.ExampleHandoffAndAirPlay | ble_scanner.py:430-449 | `[0x0C, 0x00, 0x09, 0x00]` decodes to `Handoff Active \| AirPlay Target (Apple TV/HomePod)`. |
| Continuity.ExampleTruncatedBody | ble_scanner.py:359-373 | A declared body longer than the data, and a 1-byte payload, both decode to `None`. |
| Vendors.ManufacturerNameSpec | ble_scanner.py:452-454 | Specifies `Vendors.ManufacturerName`, the model of `get_manufacturer_name`. A registered id gives its registry name; any other id gives a 20-character `Unknown (ID: 0x....)` from which the id reads back. |
| Vendors.PlaceholderEncodesId | ble_scanner.py:454 | The fallback name is `Unknown (ID: 0x`, four upper-case hex digits whose value is the id, and `)`. |
| Vendors.PlaceholderInjective | ble_scanner.py:454 | Distinct ids get distinct fallback names. |
| Vendors.ManufacturerNameNotUnknown | ble_scanner.py:452-454 | No id is named plain `Unknown`. |
| Vendors.DeviceManufacturerUnknownIff | ble_scanner.py:464-469 | Specifies `Vendors.DeviceManufacturer`, the model of `get_device_manufacturer`. A device is attributed to `Unknown` exactly when it sent no manufacturer data, and then under id 0xFFFF. Otherwise it is attributed to its first company id and that id's `ManufacturerName`. |
| Vendors.RegistryEntryAEF0IsPlaceholderText | ble_scanner.py:294 | The registry entry for 0xAEF0 is the same text as the fallback for an unregistered id. |
| Catalog.FilterDevices | ble_scanner.py:537-542 | The filter loop returns `Filtered(devices, filter)`: the devices whose lower-cased display name contains the lower-cased filter, in scan order. |
| Catalog.FilteredMembers | ble_scanner.py:539-542 | A device is kept exactly when it was scanned and passes the filter. |
| Catalog.FilteredConcat | ble_scanner.py:538-542 | Filtering distributes over concatenation, so scan order is kept. |
| Catalog.NoFilterKeepsAll | ble_scanner.py:540 | No filter, or an empty one, keeps every device in order. |
| Catalog.FalsyKeys | ble_scanner.py:576-584 | A missing or zero RSSI sorts as -100, and a missing or empty name sorts as `zzz`. Any other RSSI is its own key, and any other name is its lower-cased self. |
| Catalog.ListingOrder | ble_scanner.py:575-588 | Each `sort_by` gives a permutation of the devices, sorted by its key (RSSI descending, name or manufacturer ascending), with equal keys in scan order. Any other value leaves the list unchanged. |
| Catalog.RankLeIsOrder | ble_scanner.py:556-559 | The group order `(name == "Unknown", name)` is a total preorder. |
| Catalog.VendorOrder | ble_scanner.py:548-553 | The `defaultdict` keys are distinct, and they are exactly the manufacturers of the devices. |
| Catalog.CollectByVendor | ble_scanner.py:548-553 | The grouping loop gives each manufacturer's devices in scan order, with keys in first-appearance order. |
| Catalog.CollectStep | ble_scanner.py:551-553 | One iteration keeps the dictionary equal to the grouping of the devices seen so far. |
| Catalog.GroupsCover | ble_scanner.py:548-553 | Every kept device lies in the group of its own manufacturer. |
| Catalog.GroupMembers | ble_scanner.py:551-570 | Each group holds a permutation of its manufacturer's devices, sorted strongest first, with equal readings in scan order. |
| Catalog.GroupsOrder | ble_scanner.py:556-559 | No manufacturer has two groups, groups ascend by `(name == "Unknown", name)`, and a group named `Unknown` is last. |
| Catalog.SortEachGroup | ble_scanner.py:561-570 | The loop over the ranked groups sorts each group's devices strongest first and keeps the group order. |
| Catalog.GroupDevices | ble_scanner.py:546-570 | The grouping branch returns `SortedGroups` of the kept devices. |
| Catalog.ScanCatalog | ble_scanner.py:537-591 | The whole block returns `Catalog(devices, filter, sort_by, group_by_manufacturer)`. |
| Sorting.SortByStable | ble_scanner.py:567-588 | The sort keeps equal-key elements in input order, as Python's stable sort does (also with `reverse=True`). |
| Sorting.SortBySorted | ble_scanner.py:567-588 | The sort's result is ordered by the key. |
| Dotti.Controller.constructor | dotti.py:79-96 | A new controller is disconnected, has sent nothing, and holds 64 black cells. |
| Dotti.Controller.Connect | dotti.py:123-169 | Already connected is success. Without an address, the first scanned device is selected, and finding none fails. The link result decides `connected`. |
| Dotti.Controller.Disconnect | dotti.py:171-176 | Afterwards the controller is not connected, and nothing else changes. |
| Dotti.Controller.Write | dotti.py:183-199 | When connected, the payload is appended to the log. Otherwise it fails with `NotConnected` and nothing is sent. |
| Dotti.Controller.SetPixel | dotti.py:201-227 | Bad coordinates fail with `ValueError` before any write. Otherwise the clamped colour is sent as `[7, 2, y*8+x+1, r, g, b]`. Only after a successful write does cell `[y, x]` change, and no other cell changes. |
| Dotti.Controller.SetPixelByIndex | dotti.py:229-244 | Only indexes 0..63 are accepted. The effect is `set_pixel(index % 8, index // 8)`, which changes the cell with `y*8+x == index`. |
| Dotti.IndexCoordinates | dotti.py:239-243 | The indexes 0..63 are exactly the grid cells, row-major, and the command's index byte is the index plus one. |
| Dotti.Controller.SetAllPixels | dotti.py:246-266 | One fill command `[6, 1, r, g, b]` with clamped components, then all 64 cells hold that colour. Without a connection nothing changes. |
| Dotti.Controller.TurnOff | dotti.py:268-270 | Sends `[6, 1, 0, 0, 0]`, and every cell becomes black. |
| Dotti.Controller.TurnOn | dotti.py:272-274 | Sends `[6, 1, 255, 255, 255]`, and every cell becomes white. |
| Dotti.Controller.SetBrightness | dotti.py:276-287 | Sends `[6, 2, b]` with the level clamped into 0..100. The buffer is untouched. |
| Dotti.Controller.SaveToSlot | dotti.py:337-352 | Only slots 0..7 are accepted. It sends `[6, 6, slot]`, and the buffer is untouched. |
| Dotti.Controller.LoadFromSlot | dotti.py:354-366 | Only slots 0..7 are accepted. It sends `[6, 5, slot]`, and the buffer is untouched. |
| Dotti.Controller.WriteRow | dotti.py:302-303 | The `set_pixel` loop over one row, also used at dotti.py:334-335. When connected, it sends the row's eight pixel commands in order and row `row` holds the clamped colours. Otherwise the first write fails with `NotConnected`, nothing is sent and the buffer is unchanged. |
| Dotti.Controller.SetRow | dotti.py:289-303 | A bad row, or a colour count other than 8, fails before any write. Otherwise the eight pixel commands are sent in order and the row holds the clamped colours. |
| Dotti.Controller.SetColumn | dotti.py:305-319 | A bad column, or a colour count other than 8, fails before any write. Otherwise the eight pixel commands are sent in order and the column holds the clamped colours. |
| Dotti.Controller.SetMatrix | dotti.py:321-335 | A row count other than 8 fails up front. A row of the wrong length fails only when reached: the rows before it are already sent and stored, and the rows after it are unchanged. |
| Dotti.FirstBadRow | dotti.py:331-333 | The first row whose length is not 8 (or the row count): every earlier row has 8 cells. |
| Dotti.MatrixCommandsDecode | dotti.py:331-335 | Every payload `set_matrix` sends for its first k rows is a well-formed pixel command, 8 per row. |
| Dotti.EncodeDecode | dotti.py:215-224 | The checked and clamped arguments give a payload of bytes, the pixel index is in 1..64, and decoding the payload gives the command back. |
| Dotti.DecodeEncode | dotti.py:215-224 | Any payload that decodes is the encoding of its command, so commands and payloads correspond one to one. |
| Dotti.Clamp | dotti.py:215-217 | `max(0, min(hi, v))` lies in 0..hi: v itself when in range, 0 below, hi above. |
| Editor.HexToRgb | editor/app.py:178-181 | Success exactly when all three fields (offsets 0, 2 and 4 after the leading `#`s) parse, and the value is then the three parsed fields, each in -15..255. A failure names the field at offset 0, 2 or 4 that does not parse, and every earlier field parses. |
| Editor.ParseHexField | editor/app.py:181 | `int(s, 16)` of a field of at most two characters lies in -15..255. |
| Editor.HexToRgbSixDigits | editor/app.py:180-181 | Six hex digits of either case parse as three two-digit fields, with or without a leading `#`. |
| Editor.HexToRgbNeedsFiveDigits | editor/app.py:180-181 | A colour with at most four characters after its `#`s (such as `#abc`) never parses. |
| Editor.RgbToHexShape | editor/app.py:184-186 | Specifies `Editor.RgbToHex`, the model of `rgb_to_hex`. For components in 0..255 the result is `#` followed by six lower-case hex digits, two per component, each pair's value being its component. |
| Editor.HexRoundTrip | editor/app.py:178-186 | `hex_to_rgb(rgb_to_hex(r, g, b)) == (r, g, b)` for components in 0..255. |
| Editor.PresetsAreGrids | editor/app.py:21-126 | Exactly the eight listed ids name a preset, and each preset is 8 rows of 8 palette colours. |
| Editor.EditorState.constructor | editor/app.py:142 | The grid starts as 64 black cells. |
| Editor.EditorState.SetPixel | editor/app.py:219-226 | Coordinates outside 0..7 are a 400 and a bad colour is a `ValueError`; in both cases the grid is unchanged. Otherwise only `[y][x]` changes, and an 8x8 grid stays 8x8. |
| Editor.SetCell | editor/app.py:226 | Setting one cell keeps an 8x8 grid 8x8 and changes that cell only. |
| Editor.EditorState.ClearGrid | editor/app.py:245-249 | Afterwards the grid is 8x8 and every cell is `[0, 0, 0]`. |
| Editor.EditorState.LoadPreset | editor/app.py:327-335 | An unknown id is a 404 and leaves the grid unchanged. Otherwise the grid is the preset, cell for cell. |
| Editor.EditorState.SaveImage | editor/app.py:353-366 | The nested loops flatten the grid row by row into a new image named `StoredName(name)`. For an 8x8 grid, the 64 stored pixels read back through `get_matrix` as the same grid. |
| Editor.StoredNameSpec | editor/app.py:356-357 | A blank or whitespace-only name is stored as `Unnamed`. Any other name is stored stripped, which leaves it non-empty with no surrounding whitespace. |
| Editor.EditorState.LoadImage | editor/app.py:379-388 | A missing image is a 404 and a stored value that is not a pixel list is a `ValueError`; both leave the grid unchanged. Otherwise the grid becomes the stored image's `get_matrix`. |
| Editor.FlattenRowMajor | editor/app.py:359-363 | Rows of 8 flatten row-major: pixel `(y, x)` lands at index `y*8 + x`, and the length is 8 per row. |
| Editor.ChunkFlatten | editor/database.py:32-35 | `get_matrix` of a flattened 8x8 grid is the grid. |
| Editor.FlattenChunk | editor/database.py:32-35 | Flattening `get_matrix` of any list gives back its first 64 pixels, or all of a shorter list. |
| Editor.SaveLoadRoundTrip | editor/database.py:24-35 | An 8x8 grid stored as JSON and read back with `get_matrix` is the same grid. |
| Database.ChunkRows | editor/database.py:32-35 | `get_matrix` always gives 8 rows. Row i holds `flat[i*8 : (i+1)*8]` (clamped to the list) and is never longer than 8. |
| Database.ChunkRowsShape | editor/database.py:35 | A 64-entry list gives 8 full rows. A shorter list never fails: rows past its end are empty, and the row that straddles the end is the rest of the list. |
| Database.Slice | editor/database.py:35 | Python slicing with non-negative bounds clamps both bounds to the length. |
| Database.DeserializeSerialize | editor/database.py:24-30 | `get_pixels` after `set_pixels` gives back the same list (`json.loads` inverts `json.dumps`). |
| Database.SerializeDeserialize | editor/database.py:24-30 | A stored value that reads back as pixels is exactly what storing those pixels produces. |
| Database.Image.GetPixels | editor/database.py:24-26 | The result is a pixel list exactly when the stored value is that list's `json.dumps`. |
| Database.Image.GetMatrix | editor/database.py:32-35 | A matrix exactly when `get_pixels` gives a list. It always has 8 rows of at most 8 cells, and cell `[i][j]` is pixel `i*8 + j` of the flat list. |
| Database.Image.SetPixels | editor/database.py:28-30 | Afterwards `get_pixels` returns the list passed in, and the name is unchanged. |

## Left out

- The company-identifier registry keeps 21 of the 273 entries. The kept entries include 0x0000, 0x004C (Apple), 0x00E0 (Google) and 0xAEF0; the rest is bulk data that no property depends on.
- The lookup tables are written as functions that match on the key, not as map constants. The entries are the same.
- Radio I/O is not modelled: BLE scanning (`BleakScanner.discover`, `Dotti.scan`, `scanner.start/stop`), the GATT write itself, `asyncio.sleep`, `device_callback` and the float timeouts. `Connect` takes the scan result and the outcome of the link attempt as parameters.
- Dotti.Controller.Write: `is_connected` also consults the client's own link state. A link that drops between calls is not modelled; `connected` stands for the whole condition.
- `print_device`, the console output of `scan_devices`, and `main`/argparse are presentation and configuration, and are not modelled. The catalog is returned as data instead of printed.
- `DottiAnimation` (random values and wall-clock timing) is not modelled.
- `draw_character` is not modelled: it depends on the font module `.fonts`, which is not part of this model.
- The web layer is not modelled: FastAPI routing, templates, HTML responses, `lifespan`, the `editor` page, `delete_image`, the slot endpoints and `random_grid` (which depends on `random.choice`).
- The forwarding of grid changes to the Dotti through `ensure_dotti_connected` is not modelled; its errors are caught and printed by the endpoints.
- Editor.EditorState.LoadPreset: the grid is a value, so the fresh row lists that `[row[:] for row in ...]` makes, and any aliasing they prevent, are not represented.
- The SQLAlchemy engine, sessions, `init_db`, `get_db`, ids and `created_at` timestamps are not modelled. JSON is modelled as a value tree of numbers and lists, not as text.
- Database.Image.GetPixels: reads back only lists of `[r, g, b]` number triples and gives `None` otherwise. In Python, `json.loads` returns any JSON value. The column is `nullable=False`, and `save_image` only ever stores pixel lists.
- Editor.EditorState.LoadImage: reports every stored value that is not a list of `[r, g, b]` number triples as a `ValueError` and leaves the grid unchanged. That matches the source only in part. A stored number, object, `null` or boolean makes the slicing in `get_matrix` raise `TypeError` before `current_pixels` is assigned (editor/database.py:35, editor/app.py:388). A list whose entries are not triples is sliced and assigned to `current_pixels`. The error then comes from unpacking a cell in the Dotti loop, whose `except` prints it (editor/app.py:391-398). The model does not represent such a grid.
- Editor.ParseHexField: models `int(s, 16)` for the strings of at most two characters that `hex_to_rgb` passes. Underscores and a `0x` prefix can only matter for longer strings, and the non-ASCII digits that Python's `int` also accepts are not modelled.
- `Text.Lower` lower-cases ASCII letters only; Python's `str.lower` also folds other scripts.
- `get_device_manufacturer` takes the first manufacturer-data entry as the scanner reports them; the order of Python's dict iteration is represented by the order of that sequence.
