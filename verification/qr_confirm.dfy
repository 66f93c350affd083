/**
 * The QR confirmation page (app/devices/add/qr/confirm/page.tsx): the user
 * picks a room (living room by default) and confirms once; the confirm
 * queues one provisional record and navigates home.
 */
module QrConfirm {
  import opened Wrappers
  import opened Storage
  import opened DeviceQueue

  const IdPrefix := "qr-"
  const Subtitle := "온라인 · 자동 모드 · 약풍 (목업)"
  const HomePath := "/home"

  datatype Page = Page(isSubmitting: bool, roomType: RoomType)

  const InitialPage := Page(false, Living)

  /** The record `addMockDeviceFromQr` builds. */
  function NewDevice(roomType: RoomType, now: nat, nowIso: string): (d: RoomSummary)
    ensures IdPrefix <= d.id
    ensures d.name == NewDeviceName && d.aqi == MockAqi && d.aqiLabel == MockAqiLabel
    ensures d.roomType == Some(roomType) && d.subtitle == Subtitle && d.lastUpdated == nowIso
  {
    MockDevice(IdPrefix, Subtitle, roomType, now, nowIso)
  }

  /** `handleConfirm`: ignored while submitting; otherwise mark submitting, queue the record and go home. */
  function HandleConfirm(page: Page, st: Store, now: nat, nowIso: string, c: Codec<seq<RoomSummary>>): (r: (Page, Store, Option<string>))
    ensures page.isSubmitting ==> r == (page, st, None)
    ensures !page.isSubmitting ==>
              r.0 == page.(isSubmitting := true) &&
              r.1 == AppendLocal(st, c, NewDevice(page.roomType, now, nowIso)) &&
              r.2 == Some(HomePath)
  {
    if page.isSubmitting then (page, st, None)
    else (page.(isSubmitting := true), AppendLocal(st, c, NewDevice(page.roomType, now, nowIso)), Some(HomePath))
  }

  /** The room chosen on the page is the room recorded; the default is the living room. */
  lemma DefaultRoomIsLiving(st: Store, now: nat, nowIso: string, c: Codec<seq<RoomSummary>>)
    requires Lawful(c) && StoredList(st, c).Some?
    ensures var r := HandleConfirm(InitialPage, st, now, nowIso, c);
            var after := StoredList(r.1, c).value;
            StoredList(r.1, c).Some? && after[|after| - 1].roomType == Some(Living)
  {
    AppendLocalGrowsByOne(st, c, NewDevice(Living, now, nowIso));
  }

  /** Two confirms on one visit queue exactly one record: the first one's. */
  lemma AtMostOnePerVisit(page: Page, st: Store, t1: nat, iso1: string, t2: nat, iso2: string, c: Codec<seq<RoomSummary>>)
    requires Lawful(c) && StoredList(st, c).Some? && !page.isSubmitting
    ensures var r1 := HandleConfirm(page, st, t1, iso1, c);
            var r2 := HandleConfirm(r1.0, r1.1, t2, iso2, c);
            StoredList(r2.1, c) == Some(StoredList(st, c).value + [NewDevice(page.roomType, t1, iso1)])
  {
    var dev := NewDevice(page.roomType, t1, iso1);
    AppendLocalGrowsByOne(st, c, dev);
    var before := StoredList(st, c).value;
    var after := StoredList(AppendLocal(st, c, dev), c).value;
    assert after == after[..|before|] + [after[|before|]];
  }

  /** A stored list that does not parse is left exactly as it was, though the page still navigates. */
  lemma UnparseableQueueUntouched(page: Page, st: Store, now: nat, nowIso: string, c: Codec<seq<RoomSummary>>)
    requires StoredList(st, c).None? && !page.isSubmitting
    ensures HandleConfirm(page, st, now, nowIso, c).1 == st
    ensures HandleConfirm(page, st, now, nowIso, c).2 == Some(HomePath)
  {
  }
}
