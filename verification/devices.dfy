/**
 * The locally queued device list shared by the serial and QR registration
 * flows (app/devices/add/serial/page.tsx, app/devices/add/qr/confirm/page.tsx):
 * both read the JSON list under `puricare_mock_devices`, push one record and
 * write the whole list back; a read or parse failure is swallowed.
 */
module DeviceQueue {
  import opened Wrappers
  import opened Storage
  import Text

  const LocalDevicesKey := "puricare_mock_devices"
  const NewDeviceName := "새 기기"
  const MockAqi := 30
  const MockAqiLabel := "좋음"

  datatype RoomType = Living | Master | Small | Small2 | Toilet | Bath

  datatype RoomSummary = RoomSummary(
    id: string,
    name: string,
    subtitle: string,
    lastUpdated: string,
    aqi: int,
    aqiLabel: string,
    roomType: Option<RoomType>)

  /** The queued list as read: `raw ? JSON.parse(raw) : []`, `None` when parsing fails. */
  function StoredList(st: Store, c: Codec<seq<RoomSummary>>): (r: Option<seq<RoomSummary>>)
    ensures !Truthy(GetItem(st, LocalDevicesKey)) ==> r == Some([])
    ensures Truthy(GetItem(st, LocalDevicesKey)) ==> r == c.parse(st[LocalDevicesKey])
  {
    var raw := GetItem(st, LocalDevicesKey);
    if Truthy(raw) then c.parse(raw.value) else Some([])
  }

  /** Read-modify-write of the queue with one record pushed; a parse failure leaves the store as it was. */
  function AppendLocal(st: Store, c: Codec<seq<RoomSummary>>, dev: RoomSummary): (st': Store)
    ensures StoredList(st, c).None? ==> st' == st
    ensures StoredList(st, c).Some? ==>
              LocalDevicesKey in st' && st'[LocalDevicesKey] == c.serialise(StoredList(st, c).value + [dev])
    ensures st' - {LocalDevicesKey} == st - {LocalDevicesKey}
  {
    match StoredList(st, c)
    case None => st
    case Some(list) => Storage.Persist(st, LocalDevicesKey, c, list + [dev])
  }

  /** After an append, the queue reads back as the old queue, in order, with the new record last. */
  lemma AppendLocalGrowsByOne(st: Store, c: Codec<seq<RoomSummary>>, dev: RoomSummary)
    requires Lawful(c) && StoredList(st, c).Some?
    ensures var before := StoredList(st, c).value;
            var after := StoredList(AppendLocal(st, c, dev), c);
            after.Some? && |after.value| == |before| + 1 &&
            after.value[..|before|] == before && after.value[|before|] == dev
  {
    var before := StoredList(st, c).value;
    ReadAfterPersist(st, LocalDevicesKey, c, before + [dev]);
    assert (before + [dev])[..|before|] == before;
  }

  /** A provisional record as both flows build it: fixed name, AQI and label; id from the clock. */
  function MockDevice(idPrefix: string, subtitle: string, roomType: RoomType, now: nat, nowIso: string): (d: RoomSummary)
    ensures d.id == idPrefix + Text.NatToString(now)
    ensures d.name == NewDeviceName && d.aqi == MockAqi && d.aqiLabel == MockAqiLabel
    ensures d.subtitle == subtitle && d.lastUpdated == nowIso && d.roomType == Some(roomType)
  {
    RoomSummary(idPrefix + Text.NatToString(now), NewDeviceName, subtitle, nowIso, MockAqi, MockAqiLabel, Some(roomType))
  }

  /** Ids built from the clock differ when the clock readings differ. */
  lemma {:induction false} MockIdsDifferAcrossTime(prefix: string, t1: nat, t2: nat)
    requires t1 != t2
    ensures prefix + Text.NatToString(t1) != prefix + Text.NatToString(t2)
  {
    Text.NatToStringRoundTrip(t1);
    Text.NatToStringRoundTrip(t2);
    assert (prefix + Text.NatToString(t1))[|prefix|..] == Text.NatToString(t1);
    assert (prefix + Text.NatToString(t2))[|prefix|..] == Text.NatToString(t2);
  }
}
