/**
 * The FIT rewriting engine of fit_editor.py.
 *
 * `FitEditor.edit_fit` reads a FIT file's records and passes each to a builder,
 * rewriting them so the file looks as if a Garmin Edge 830 recorded it:
 *  - Activity messages are held back and written after everything else;
 *  - every FileId and FileCreator record of the input is dropped, and each FileId
 *    message is replaced by a rebuilt one followed by a synthetic FileCreator;
 *  - DeviceInfo messages of device type 0 are dropped, later device indices
 *    renumbered, and the identity of virtual devices overwritten.
 * Before that, `strip_unknown_fields` clears the definition of every message whose
 * definition names a field the message does not carry, so that the builder writes
 * a fresh one.
 *
 * Records are values here. A message that the source updates in place is replaced
 * by its updated value, and the builder is an object whose list of messages is only
 * ever appended to.
 */
module FitEditor {
  import opened Common

  // ---------------------------------------------------------------------------
  // Profile constants of the FIT protocol

  const FILE_ID: nat := 0
  const DEVICE_INFO: nat := 23
  const ACTIVITY: nat := 34
  const FILE_CREATOR: nat := 49

  const GARMIN: int := 1
  const PEAKSWARE: int := 28
  const WAHOO_FITNESS: int := 32
  const DEVELOPMENT: int := 255
  const ZWIFT: int := 260
  const HAMMERHEAD: int := 289
  const COROS: int := 294
  /** MyWhoosh, a manufacturer fit_tool's profile does not name. */
  const MYWHOOSH: int := 331

  const EDGE_830: int := 3122

  // ---------------------------------------------------------------------------
  // Messages

  /** The FileId fields the editor reads or writes. */
  datatype FileIdFields = FileIdFields(
    fileType: Option<int>,
    manufacturer: Option<int>,
    product: Option<int>,
    serialNumber: Option<int>,
    timeCreated: Option<int>,
    productName: Option<string>)

  datatype FileCreatorFields = FileCreatorFields(softwareVersion: Option<int>, hardwareVersion: Option<int>)

  /** The DeviceInfo fields the editor reads or writes. */
  datatype DeviceInfoFields = DeviceInfoFields(
    deviceIndex: Option<int>,
    deviceType: Option<int>,
    manufacturer: Option<int>,
    garminProduct: Option<int>,
    product: Option<int>,
    productName: Option<string>)

  /** What a data message is, by its class in fit_tool's profile. */
  datatype Content =
    | FileId(fileId: FileIdFields)
    | FileCreator(creator: FileCreatorFields)
    | DeviceInfo(device: DeviceInfoFields)
    | Activity
    | Other(otherId: nat)

  /** A field a data message carries, and whether its value is valid. */
  datatype Field = Field(fieldId: nat, valid: bool)

  /**
   * A record of a FIT file: a definition message, or a data message with the
   * field ids of the definition it refers to (if any) and the fields it carries.
   */
  datatype Message =
    | Definition(globalId: nat)
    | Data(content: Content, definition: Option<seq<nat>>, fields: seq<Field>)

  function ContentGlobalId(c: Content): nat
  {
    match c
    case FileId(_) => FILE_ID
    case FileCreator(_) => FILE_CREATOR
    case DeviceInfo(_) => DEVICE_INFO
    case Activity => ACTIVITY
    case Other(g) => g
  }

  /** `message.global_id`. */
  function GlobalId(m: Message): nat
  {
    match m
    case Definition(g) => g
    case Data(c, _, _) => ContentGlobalId(c)
  }

  /** `isinstance(message, ActivityMessage)`: an Activity data message. */
  predicate IsActivityData(m: Message)
  {
    m.Data? && m.content.Activity?
  }

  /** A data message the editor builds from scratch; the builder defines it afresh. */
  function Built(c: Content): Message
  {
    Data(c, None, [])
  }

  // ---------------------------------------------------------------------------
  // The rewrite rules

  /** `_should_modify_manufacturer`: the manufacturers whose FileId is rewritten. */
  predicate ShouldModifyManufacturer(manufacturer: Option<int>)
  {
    manufacturer.Some? &&
    manufacturer.value in [DEVELOPMENT, ZWIFT, WAHOO_FITNESS, PEAKSWARE, HAMMERHEAD, COROS, MYWHOOSH]
  }

  /** `_should_modify_device_info`: the same manufacturers, and the blank one, 0. */
  predicate ShouldModifyDeviceInfo(manufacturer: Option<int>)
  {
    manufacturer.Some? &&
    manufacturer.value in [DEVELOPMENT, 0, WAHOO_FITNESS, ZWIFT, PEAKSWARE, HAMMERHEAD, COROS, MYWHOOSH]
  }

  /**
   * Neither rule fires for `None`; the DeviceInfo rule fires for exactly the
   * manufacturers of the FileId rule and for 0; Garmin itself is never rewritten.
   */
  lemma ShouldModifyRules(manufacturer: Option<int>)
    ensures manufacturer.None? ==> !ShouldModifyManufacturer(manufacturer) && !ShouldModifyDeviceInfo(manufacturer)
    ensures ShouldModifyManufacturer(manufacturer) ==> ShouldModifyDeviceInfo(manufacturer)
    ensures ShouldModifyDeviceInfo(manufacturer) && !ShouldModifyManufacturer(manufacturer) <==> manufacturer == Some(0)
    ensures !ShouldModifyDeviceInfo(Some(GARMIN))
    ensures ShouldModifyManufacturer(manufacturer) <==>
      manufacturer.Some? && manufacturer.value in {255, 260, 32, 28, 289, 294, 331}
  {}

  /**
   * `rewrite_file_id_message`: a new FileId that keeps the creation time (or
   * takes `now`, in milliseconds, when it is 0), the file type when it is set,
   * and the serial number, drops the product name, and claims to be an Edge 830
   * made by Garmin when the manufacturer is one of the virtual ones. The first
   * thing it does is divide the creation time by 1000, which raises TypeError
   * on a FileId without one: callers check for that first.
   */
  function RewriteFileId(m: FileIdFields, now: int): (r: FileIdFields)
    requires m.timeCreated.Some?
    ensures ShouldModifyManufacturer(m.manufacturer) <==> r.manufacturer == Some(GARMIN)
    ensures ShouldModifyManufacturer(m.manufacturer) <==> r.product == Some(EDGE_830)
    ensures !ShouldModifyManufacturer(m.manufacturer) ==> r.manufacturer.None? && r.product.None?
    ensures r.serialNumber == m.serialNumber
    ensures Truthy(m.fileType) ==> r.fileType == m.fileType
    ensures !Truthy(m.fileType) ==> r.fileType.None?
    ensures r.productName.None?
    ensures Truthy(m.timeCreated) ==> r.timeCreated == m.timeCreated
    ensures !Truthy(m.timeCreated) ==> r.timeCreated == Some(now)
  {
    var identify := ShouldModifyManufacturer(m.manufacturer);
    FileIdFields(
      fileType := if Truthy(m.fileType) then m.fileType else None,
      manufacturer := if identify then Some(GARMIN) else None,
      product := if identify then Some(EDGE_830) else None,
      serialNumber := if m.serialNumber.Some? then m.serialNumber else None,
      timeCreated := if Truthy(m.timeCreated) then m.timeCreated else Some(now),
      productName := None)
  }

  /**
   * A rewritten FileId no longer names a virtual manufacturer, so rewriting it
   * again drops the manufacturer and product altogether, while every other field
   * it holds is kept.
   */
  lemma RewriteFileIdTwice(m: FileIdFields, now: int, later: int)
    requires m.timeCreated.Some?
    ensures var once := RewriteFileId(m, now);
      var twice := RewriteFileId(once, later);
      twice.manufacturer.None? && twice.product.None? &&
      (now != 0 ==> twice == once.(manufacturer := None, product := None))
  {
    ShouldModifyRules(Some(GARMIN));
    ShouldModifyRules(RewriteFileId(m, now).manufacturer);
  }

  /** The FileCreator the editor adds after every rewritten FileId. */
  const SyntheticCreator: Message := Built(FileCreator(FileCreatorFields(Some(975), Some(255))))

  /** The shift of device indices after a device of type 0 was dropped. */
  function Renumber(d: DeviceInfoFields, skippedTypeZero: bool): (r: DeviceInfoFields)
    ensures r.deviceIndex.None? <==> d.deviceIndex.None?
    ensures skippedTypeZero && d.deviceIndex.Some? ==> r.deviceIndex.value == d.deviceIndex.value - 1
    ensures !skippedTypeZero ==> r == d
    ensures r == d.(deviceIndex := r.deviceIndex)
  {
    if skippedTypeZero && d.deviceIndex.Some? then d.(deviceIndex := Some(d.deviceIndex.value - 1)) else d
  }

  /**
   * The identity overwrite of a DeviceInfo from a virtual device: products and
   * manufacturer that are set (non-zero) become Edge 830 and Garmin, the product
   * name is emptied, and everything else is kept.
   */
  function ModifyDeviceInfo(d: DeviceInfoFields): (r: DeviceInfoFields)
    ensures !ShouldModifyDeviceInfo(d.manufacturer) ==> r == d
    ensures ShouldModifyDeviceInfo(d.manufacturer) ==>
      && r.garminProduct == (if Truthy(d.garminProduct) then Some(EDGE_830) else d.garminProduct)
      && r.product == (if Truthy(d.product) then Some(EDGE_830) else d.product)
      && r.manufacturer == (if Truthy(d.manufacturer) then Some(GARMIN) else d.manufacturer)
      && r.productName == Some("")
    ensures r.deviceIndex == d.deviceIndex && r.deviceType == d.deviceType
  {
    if ShouldModifyDeviceInfo(d.manufacturer) then
      d.(garminProduct := if Truthy(d.garminProduct) then Some(EDGE_830) else d.garminProduct,
         product := if Truthy(d.product) then Some(EDGE_830) else d.product,
         manufacturer := if Truthy(d.manufacturer) then Some(GARMIN) else d.manufacturer,
         productName := Some(""))
    else d
  }

  /** Overwriting a device's identity a second time changes nothing more. */
  lemma ModifyDeviceInfoIdempotent(d: DeviceInfoFields)
    ensures ModifyDeviceInfo(ModifyDeviceInfo(d)) == ModifyDeviceInfo(d)
    ensures ShouldModifyDeviceInfo(d.manufacturer) ==>
      (ShouldModifyDeviceInfo(ModifyDeviceInfo(d).manufacturer) <==> d.manufacturer == Some(0))
  {
    ShouldModifyRules(Some(GARMIN));
    ShouldModifyRules(d.manufacturer);
  }

  // ---------------------------------------------------------------------------
  // strip_unknown_fields

  /** The ids of the fields a message carries with a valid value. */
  function ValidFieldIds(fields: seq<Field>): set<nat>
  {
    set f | f in fields && f.valid :: f.fieldId
  }

  /** A data message whose definition lists a field it does not validly carry. */
  predicate HasUnknownFields(m: Message)
  {
    m.Data? && m.definition.Some? && !((set id | id in m.definition.value) <= ValidFieldIds(m.fields))
  }

  /** The effect of `strip_unknown_fields` on one message: forget a stale definition. */
  function StripMessage(m: Message): (r: Message)
    ensures HasUnknownFields(m) ==> r == m.(definition := None)
    ensures !HasUnknownFields(m) ==> r == m
  {
    if HasUnknownFields(m) then m.(definition := None) else m
  }

  /**
   * A message is changed exactly when its definition names an unknown field, only
   * its definition changes, no stripped message is stale, and stripping twice is
   * stripping once.
   */
  lemma StripMessageProperties(m: Message)
    ensures StripMessage(m) != m <==> HasUnknownFields(m)
    ensures StripMessage(m).Data? ==> StripMessage(m).content == m.content && StripMessage(m).fields == m.fields
    ensures m.Definition? || m.definition.None? ==> StripMessage(m) == m
    ensures !HasUnknownFields(StripMessage(m))
    ensures StripMessage(StripMessage(m)) == StripMessage(m)
  {}

  /** `strip_unknown_fields`: clear every stale definition, record by record. */
  method StripUnknownFields(records: seq<Message>) returns (out: seq<Message>)
    ensures |out| == |records|
    ensures forall i | 0 <= i < |records| :: out[i] == StripMessage(records[i])
  {
    out := records;
    for i := 0 to |records|
      invariant |out| == |records|
      invariant forall k | 0 <= k < i :: out[k] == StripMessage(records[k])
      invariant forall k | i <= k < |records| :: out[k] == records[k]
    {
      var message := records[i];
      if !message.Data? || message.definition.None? {
        continue;
      }
      var existingFieldIds := set f | f in message.fields && f.valid :: f.fieldId;
      var definitionFieldIds := set id | id in message.definition.value;
      var unknownFields := definitionFieldIds - existingFieldIds;
      assert existingFieldIds == ValidFieldIds(message.fields);
      assert unknownFields == {} <==> definitionFieldIds <= existingFieldIds by {
        if unknownFields == {} {
          forall id | id in definitionFieldIds ensures id in existingFieldIds {
            assert id !in unknownFields;
          }
        }
      }
      if unknownFields != {} {
        out := out[i := message.(definition := None)];
      }
    }
  }

  /** After stripping, no record is stale, and stripping again changes nothing. */
  lemma StripAllIdempotent(records: seq<Message>, out: seq<Message>)
    requires |out| == |records|
    requires forall i | 0 <= i < |records| :: out[i] == StripMessage(records[i])
    ensures forall i | 0 <= i < |out| :: !HasUnknownFields(out[i]) && StripMessage(out[i]) == out[i]
  {
    forall i | 0 <= i < |out|
      ensures !HasUnknownFields(out[i]) && StripMessage(out[i]) == out[i]
    {
      StripMessageProperties(records[i]);
    }
  }

  // ---------------------------------------------------------------------------
  // The record loop of edit_fit

  /** `FitFileBuilder`: the messages it has been given, in order. */
  class Builder {
    var messages: seq<Message>

    constructor ()
      ensures messages == []
    {
      messages := [];
    }

    method Add(m: Message)
      modifies this
      ensures messages == old(messages) + [m]
    {
      messages := messages + [m];
    }
  }

  /** `isinstance(message, DeviceInfoMessage)`. */
  predicate IsDeviceData(m: Message)
  {
    m.Data? && m.content.DeviceInfo?
  }

  /** A DeviceInfo message of device type 0, which the loop skips. */
  predicate IsTypeZeroDevice(m: Message)
  {
    IsDeviceData(m) && m.content.device.deviceType == Some(0)
  }

  /**
   * A FileId data message without a creation time, on which `rewrite_file_id_message`
   * raises TypeError and so ends `edit_fit`.
   */
  predicate LacksCreationTime(m: Message)
  {
    m.Data? && m.content.FileId? && m.content.fileId.timeCreated.None?
  }

  /** Records the loop gets through without raising: every FileId has a creation time. */
  predicate Editable(records: seq<Message>)
  {
    forall i | 0 <= i < |records| :: !LacksCreationTime(records[i])
  }

  /** The block that replaces a FileId message: its definition, itself rewritten, and a FileCreator. */
  function FileIdBlock(m: FileIdFields, now: int): seq<Message>
    requires m.timeCreated.Some?
  {
    [Definition(FILE_ID), Built(FileId(RewriteFileId(m, now))), Definition(FILE_CREATOR), SyntheticCreator]
  }

  /** A kept DeviceInfo message, renumbered and with its identity overwritten. */
  function RewriteDevice(m: Message, skipped: bool): Message
    requires IsDeviceData(m)
  {
    m.(content := DeviceInfo(ModifyDeviceInfo(Renumber(m.content.device, skipped))))
  }

  /**
   * What the loop gives the builder for one record, given whether a DeviceInfo
   * of device type 0 was skipped before it.
   */
  function Emitted(m: Message, skipped: bool, now: int): seq<Message>
    requires !LacksCreationTime(m)
  {
    if IsActivityData(m) then []
    else if GlobalId(m) == FILE_ID && m.Definition? then []
    else if GlobalId(m) == FILE_ID && m.content.FileId? then FileIdBlock(m.content.fileId, now)
    else if GlobalId(m) == FILE_CREATOR then []
    else if GlobalId(m) == DEVICE_INFO && IsDeviceData(m) then
      (if IsTypeZeroDevice(m) then [] else [RewriteDevice(m, skipped)])
    else [m]
  }

  /**
   * The state of the record loop: what the builder has been given, the deferred
   * Activity messages, and whether a DeviceInfo of device type 0 was skipped.
   */
  datatype PassState = PassState(built: seq<Message>, activities: seq<Message>, skipped: bool)

  /** What the record loop does with one record. */
  function Step(s: PassState, m: Message, now: int): PassState
    requires !LacksCreationTime(m)
  {
    PassState(
      s.built + Emitted(m, s.skipped, now),
      s.activities + (if IsActivityData(m) then [m] else []),
      s.skipped || IsTypeZeroDevice(m))
  }

  /** The state after the loop has seen `records`. */
  function Pass(records: seq<Message>, now: int): PassState
    requires Editable(records)
  {
    if |records| == 0 then PassState([], [], false)
    else Step(Pass(records[..|records| - 1], now), records[|records| - 1], now)
  }

  /** What the builder holds once the deferred Activity messages are added at the end. */
  function EditOutput(records: seq<Message>, now: int): seq<Message>
    requires Editable(records)
  {
    Pass(records, now).built + Pass(records, now).activities
  }

  /**
   * The body of the record loop of `edit_fit` for one record: defer it, drop it,
   * or give the builder what replaces it, and note a skipped device of type 0.
   */
  method ProcessRecord(builder: Builder, message: Message, skipped: bool, now: int)
    returns (deferred: seq<Message>, skippedAfter: bool, raised: bool)
    modifies builder
    ensures raised <==> LacksCreationTime(message)
    ensures raised ==> builder.messages == old(builder.messages)
    ensures !raised ==> builder.messages == old(builder.messages) + Emitted(message, skipped, now)
    ensures deferred == if IsActivityData(message) then [message] else []
    ensures skippedAfter == (skipped || IsTypeZeroDevice(message))
  {
    deferred, skippedAfter, raised := [], skipped, false;
    if IsActivityData(message) {
      return [message], skipped, false;
    }
    if GlobalId(message) == FILE_ID {
      if message.Definition? {
        return;
      }
      if message.content.FileId? {
        if message.content.fileId.timeCreated.None? {
          // `time_created / 1000.0` on None raises TypeError.
          return [], skipped, true;
        }
        var newFileId := RewriteFileId(message.content.fileId, now);
        builder.Add(Definition(FILE_ID));
        builder.Add(Built(FileId(newFileId)));
        builder.Add(Definition(FILE_CREATOR));
        builder.Add(SyntheticCreator);
        return;
      }
    }
    if GlobalId(message) == FILE_CREATOR {
      return;
    }
    var m := message;
    if GlobalId(message) == DEVICE_INFO && IsDeviceData(message) {
      var d := message.content.device;
      if d.deviceType == Some(0) {
        return [], true, false;
      }
      d := Renumber(d, skipped);
      d := ModifyDeviceInfo(d);
      m := message.(content := DeviceInfo(d));
    }
    builder.Add(m);
  }

  /**
   * The record loop of `edit_fit` and the appending of the deferred Activity
   * messages; `None` when a FileId without a creation time raises TypeError.
   */
  method RewriteRecords(records: seq<Message>, now: int) returns (out: Option<seq<Message>>)
    ensures out.None? <==> !Editable(records)
    ensures out.Some? ==> Editable(records) && out.value == EditOutput(records, now)
  {
    var builder := new Builder();
    var skippedDeviceTypeZero := false;
    var activityMessages: seq<Message> := [];
    for i := 0 to |records|
      invariant Editable(records[..i])
      invariant PassState(builder.messages, activityMessages, skippedDeviceTypeZero) == Pass(records[..i], now)
    {
      assert records[..i + 1][..i] == records[..i];
      var deferred, raised;
      deferred, skippedDeviceTypeZero, raised := ProcessRecord(builder, records[i], skippedDeviceTypeZero, now);
      if raised {
        assert LacksCreationTime(records[i]);
        return None;
      }
      assert Editable(records[..i + 1]) by {
        assert forall k | 0 <= k < i + 1 :: records[..i + 1][k] == records[k];
      }
      activityMessages := activityMessages + deferred;
    }
    assert records[..|records|] == records;
    AddAll(builder, activityMessages);
    out := Some(builder.messages);
  }

  /** The final loop of `edit_fit`: the deferred messages are added, in order. */
  method AddAll(builder: Builder, messages: seq<Message>)
    modifies builder
    ensures builder.messages == old(builder.messages) + messages
  {
    for j := 0 to |messages|
      invariant builder.messages == old(builder.messages) + messages[..j]
    {
      assert messages[..j + 1] == messages[..j] + [messages[j]];
      builder.Add(messages[j]);
    }
    assert messages[..|messages|] == messages;
  }

  // ---------------------------------------------------------------------------
  // Properties of the record loop

  /** The loop never gives the builder an Activity message. */
  lemma EmittedNoActivity(m: Message, skipped: bool, now: int)
    requires !LacksCreationTime(m)
    ensures forall x | x in Emitted(m, skipped, now) :: !IsActivityData(x)
  {}

  /** The deferred messages are the input's Activity messages, in input order. */
  lemma {:induction false} PassActivities(records: seq<Message>, now: int)
    requires Editable(records)
    ensures Pass(records, now).activities == Filter(IsActivityData, records)
    ensures forall m | m in Pass(records, now).built :: !IsActivityData(m)
  {
    if |records| > 0 {
      var init, m := records[..|records| - 1], records[|records| - 1];
      PassActivities(init, now);
      EmittedNoActivity(m, Pass(init, now).skipped, now);
    }
  }

  /**
   * Every Activity message of the output follows every other message, the
   * Activity messages are exactly those of the input in input order, and the
   * output has no other Activity message.
   */
  lemma ActivitiesLast(records: seq<Message>, now: int)
    requires Editable(records)
    ensures var out := EditOutput(records, now);
      forall i, j | 0 <= i < j < |out| :: IsActivityData(out[i]) ==> IsActivityData(out[j])
    ensures Filter(IsActivityData, EditOutput(records, now)) == Filter(IsActivityData, records)
  {
    var built, acts := Pass(records, now).built, Pass(records, now).activities;
    assert EditOutput(records, now) == built + acts;
    PassActivities(records, now);
    FilterAppend(IsActivityData, built, acts);
    FilterNone(IsActivityData, built);
    FilterAll(IsActivityData, acts);
    ActivitiesAfter(built, acts);
  }

  lemma ActivitiesAfter(built: seq<Message>, acts: seq<Message>)
    requires forall m | m in built :: !IsActivityData(m)
    requires forall m | m in acts :: IsActivityData(m)
    ensures var out := built + acts;
      forall i, j | 0 <= i < j < |out| :: IsActivityData(out[i]) ==> IsActivityData(out[j])
  {
    var out := built + acts;
    assert forall k | 0 <= k < |built| :: out[k] == built[k] && built[k] in built;
    assert forall k | |built| <= k < |out| :: out[k] == acts[k - |built|] && acts[k - |built|] in acts;
  }

  /**
   * A message the loop passes on untouched: it is no Activity or DeviceInfo data
   * message and its global id is not FileId or FileCreator. This includes the
   * DeviceInfo definitions and any other message with the DeviceInfo global id.
   */
  predicate Untouched(m: Message)
  {
    !IsActivityData(m) && GlobalId(m) != FILE_ID && GlobalId(m) != FILE_CREATOR && !IsDeviceData(m)
  }

  lemma EmittedUntouched(m: Message, skipped: bool, now: int)
    requires !LacksCreationTime(m)
    ensures Filter(Untouched, Emitted(m, skipped, now)) == if Untouched(m) then [m] else []
  {
    var e := Emitted(m, skipped, now);
    if Untouched(m) {
      assert e == [m];
      FilterAll(Untouched, e);
    } else {
      FilterNone(Untouched, e);
    }
  }

  /** The untouched messages reach the builder unchanged and in input order. */
  lemma {:induction false} UntouchedKept(records: seq<Message>, now: int)
    requires Editable(records)
    ensures Filter(Untouched, Pass(records, now).built) == Filter(Untouched, records)
  {
    if |records| > 0 {
      var init, m := records[..|records| - 1], records[|records| - 1];
      var s := Pass(init, now);
      UntouchedKept(init, now);
      FilterAppend(Untouched, s.built, Emitted(m, s.skipped, now));
      EmittedUntouched(m, s.skipped, now);
    }
  }

  /** The messages with global id FileId or FileCreator. */
  predicate FileIdent(m: Message)
  {
    !IsActivityData(m) && (GlobalId(m) == FILE_ID || GlobalId(m) == FILE_CREATOR)
  }

  /**
   * The FileId and FileCreator records the output should hold: the block of each
   * input FileId message, and nothing for the input's FileCreator records or
   * FileId definitions.
   */
  function FileIdBlocks(records: seq<Message>, now: int): seq<Message>
    requires Editable(records)
  {
    if |records| == 0 then []
    else
      var m := records[|records| - 1];
      FileIdBlocks(records[..|records| - 1], now) +
        (if m.Data? && m.content.FileId? then FileIdBlock(m.content.fileId, now)
         else if m.Data? && FileIdent(m) && GlobalId(m) == FILE_ID then [m]
         else [])
  }

  lemma EmittedFileIdent(m: Message, skipped: bool, now: int)
    requires !LacksCreationTime(m)
    ensures Filter(FileIdent, Emitted(m, skipped, now)) ==
      if m.Data? && m.content.FileId? then FileIdBlock(m.content.fileId, now)
      else if m.Data? && FileIdent(m) && GlobalId(m) == FILE_ID then [m]
      else []
  {
    var e := Emitted(m, skipped, now);
    if m.Data? && m.content.FileId? {
      FilterAll(FileIdent, e);
    } else if m.Data? && FileIdent(m) && GlobalId(m) == FILE_ID {
      FilterAll(FileIdent, e);
    } else {
      FilterNone(FileIdent, e);
    }
  }

  /**
   * No FileCreator and no FileId definition of the input survives: every FileId
   * message of the input becomes its definition, the rewritten message, a
   * FileCreator definition and the synthetic FileCreator (software 975,
   * hardware 255), in input order.
   */
  lemma {:induction false} FileIdRecordsReplaced(records: seq<Message>, now: int)
    requires Editable(records)
    ensures Filter(FileIdent, Pass(records, now).built) == FileIdBlocks(records, now)
  {
    if |records| > 0 {
      var init, m := records[..|records| - 1], records[|records| - 1];
      var s := Pass(init, now);
      FileIdRecordsReplaced(init, now);
      FilterAppend(FileIdent, s.built, Emitted(m, s.skipped, now));
      EmittedFileIdent(m, s.skipped, now);
    }
  }

  /** The same holds of the whole output: the deferred Activity messages add none. */
  lemma FileIdRecordsInOutput(records: seq<Message>, now: int)
    requires Editable(records)
    ensures Filter(FileIdent, EditOutput(records, now)) == FileIdBlocks(records, now)
  {
    var built, acts := Pass(records, now).built, Pass(records, now).activities;
    FileIdRecordsReplaced(records, now);
    PassActivities(records, now);
    FilterAppend(FileIdent, built, acts);
    FilterNone(FileIdent, acts);
  }

  /** The input contains a DeviceInfo message of device type 0. */
  predicate SkipsTypeZero(records: seq<Message>)
  {
    exists m | m in records :: IsTypeZeroDevice(m)
  }

  /**
   * The DeviceInfo messages the output should hold: each input DeviceInfo that is
   * not of device type 0, its index lowered by one if any device of type 0 came
   * before it (however many did), then its identity overwritten.
   */
  function ExpectedDevices(records: seq<Message>): seq<Message>
  {
    if |records| == 0 then []
    else
      var init, m := records[..|records| - 1], records[|records| - 1];
      ExpectedDevices(init) +
        (if IsDeviceData(m) && !IsTypeZeroDevice(m) then [RewriteDevice(m, SkipsTypeZero(init))] else [])
  }

  /** The loop's flag records whether any DeviceInfo of device type 0 was seen. */
  lemma {:induction false} SkippedFlag(records: seq<Message>, now: int)
    requires Editable(records)
    ensures Pass(records, now).skipped <==> SkipsTypeZero(records)
  {
    if |records| > 0 {
      var init, m := records[..|records| - 1], records[|records| - 1];
      SkippedFlag(init, now);
      assert records == init + [m];
      if SkipsTypeZero(init) {
        var w :| w in init && IsTypeZeroDevice(w);
        assert w in records;
      }
    }
  }

  lemma EmittedDevices(m: Message, skipped: bool, now: int)
    requires !LacksCreationTime(m)
    ensures Filter(IsDeviceData, Emitted(m, skipped, now)) ==
      if IsDeviceData(m) && !IsTypeZeroDevice(m) then [RewriteDevice(m, skipped)] else []
  {
    var e := Emitted(m, skipped, now);
    if IsDeviceData(m) && !IsTypeZeroDevice(m) {
      FilterAll(IsDeviceData, e);
    } else {
      FilterNone(IsDeviceData, e);
    }
  }

  /** The DeviceInfo messages the builder is given are exactly the expected ones, in input order. */
  lemma {:induction false} DevicesRewritten(records: seq<Message>, now: int)
    requires Editable(records)
    ensures Filter(IsDeviceData, Pass(records, now).built) == ExpectedDevices(records)
  {
    if |records| > 0 {
      var init, m := records[..|records| - 1], records[|records| - 1];
      var s := Pass(init, now);
      DevicesRewritten(init, now);
      SkippedFlag(init, now);
      FilterAppend(IsDeviceData, s.built, Emitted(m, s.skipped, now));
      EmittedDevices(m, s.skipped, now);
    }
  }

  /**
   * In the whole output too: no DeviceInfo of device type 0, and every other one
   * renumbered and rewritten as expected, with its fields and definition kept.
   */
  lemma DevicesInOutput(records: seq<Message>, now: int)
    requires Editable(records)
    ensures Filter(IsDeviceData, EditOutput(records, now)) == ExpectedDevices(records)
    ensures forall m | m in EditOutput(records, now) :: !IsTypeZeroDevice(m)
  {
    var built, acts := Pass(records, now).built, Pass(records, now).activities;
    DevicesRewritten(records, now);
    PassActivities(records, now);
    FilterAppend(IsDeviceData, built, acts);
    FilterNone(IsDeviceData, acts);
    ExpectedDevicesNotTypeZero(records);
    forall m | m in EditOutput(records, now)
      ensures !IsTypeZeroDevice(m)
    {
      if IsDeviceData(m) {
        assert m in Filter(IsDeviceData, EditOutput(records, now));
      }
    }
  }

  lemma {:induction false} ExpectedDevicesNotTypeZero(records: seq<Message>)
    ensures forall m | m in ExpectedDevices(records) :: IsDeviceData(m) && !IsTypeZeroDevice(m)
  {
    if |records| > 0 {
      ExpectedDevicesNotTypeZero(records[..|records| - 1]);
    }
  }

  // ---------------------------------------------------------------------------
  // edit_fit

  /** The output path `edit_fit` chooses when none is given: `<stem>_modified.fit` beside the input. */
  function DefaultOutput(fitPath: Path): (r: Path)
    ensures r.parent == fitPath.parent
    ensures EndsWith(r.name, "_modified.fit")
    ensures r.name == Stem(fitPath.name) + "_modified.fit"
  {
    Path(fitPath.parent, Stem(fitPath.name) + "_modified.fit")
  }

  /**
   * How `edit_fit` ends: the file cannot be read (it returns None), the rewrite
   * raises TypeError on a FileId without a creation time, or it returns the
   * output path, having written the records there unless this is a dry run.
   */
  datatype EditResult = Unreadable | RaisedTypeError | Edited(output: Path, written: Option<seq<Message>>)

  /**
   * `edit_fit`. Reading the file is a parameter: `parsed` is its records, or
   * `None` when fit_tool cannot read it. The records are stripped, rewritten and,
   * outside a dry run, written to the given or default output path.
   */
  method EditFit(fitPath: Path, parsed: Option<seq<Message>>, output: Option<Path>, dryrun: bool, now: int)
    returns (r: EditResult)
    ensures parsed.None? <==> r.Unreadable?
    ensures parsed.Some? ==> (r.RaisedTypeError? <==> !Editable(parsed.value))
    ensures r.Edited? ==> r.output == if output.Some? then output.value else DefaultOutput(fitPath)
    ensures r.Edited? && dryrun ==> r.written.None?
    ensures r.Edited? && !dryrun ==>
      && parsed.Some?
      && exists stripped: seq<Message> ::
           && |stripped| == |parsed.value|
           && (forall i | 0 <= i < |stripped| :: stripped[i] == StripMessage(parsed.value[i]))
           && Editable(stripped)
           && r.written == Some(EditOutput(stripped, now))
  {
    if parsed.None? {
      return Unreadable;
    }
    var records := StripUnknownFields(parsed.value);
    assert Editable(records) <==> Editable(parsed.value) by {
      forall i | 0 <= i < |records|
        ensures LacksCreationTime(records[i]) <==> LacksCreationTime(parsed.value[i])
      {
        StripKeepsCreationTime(parsed.value[i]);
      }
    }
    var out := if output.Some? then output.value else DefaultOutput(fitPath);
    var built := RewriteRecords(records, now);
    if built.None? {
      return RaisedTypeError;
    }
    r := Edited(out, if dryrun then None else Some(built.value));
  }

  /** Stripping a definition leaves the FileId content, and so its creation time, alone. */
  lemma StripKeepsCreationTime(m: Message)
    ensures LacksCreationTime(StripMessage(m)) <==> LacksCreationTime(m)
  {
    StripMessageProperties(m);
  }

  // ---------------------------------------------------------------------------
  // FitFileLogFilter

  const ActualMarker: string := "\n\tactual: "

  /** `FitFileLogFilter.filter`: keep a log record unless its message contains the marker. */
  predicate LogFilter(message: string)
  {
    !Contains(message, ActualMarker)
  }

  /** A record is dropped exactly when the marker splits its message. */
  lemma LogFilterDrops(message: string)
    ensures !LogFilter(message) <==> exists a: string, b: string :: message == a + ActualMarker + b
  {
    ContainsIffSplit(message, ActualMarker);
  }
}
