/**
 * The automation page (app/automation/page.tsx): three built-in rules whose
 * `active` flag the user toggles by id, and the count of active rules.
 */
module Automation {

  datatype AutoType = Routine | Schedule

  datatype AutomationItem = AutomationItem(
    id: int,
    name: string,
    description: string,
    kind: AutoType,
    badge: string,
    detail: string,
    active: bool)

  const InitialAutomations: seq<AutomationItem> := [
    AutomationItem(1, "귀가 30분 전 미리 켜기",
      "평일 18시 이후, 집 근처 도착 시 자동으로 강풍으로 가동합니다.",
      Routine, "위치 + 시간", "퇴근 시간대 + 집 반경 500m 이내 진입 시 실행", true),
    AutomationItem(2, "수면 모드",
      "23시 이후 방 안 CO₂/PM2.5가 일정 수준 이상이면 조용한 수면 모드로 전환합니다.",
      Routine, "야간 · 수면", "심야 시간 + 센서 데이터 기반, 팬 속도·조명 자동 조절", true),
    AutomationItem(3, "외출 시 자동 OFF",
      "집에서 1시간 이상 벗어나 있으면 절전 모드로 전환합니다.",
      Schedule, "절전", "위치 이탈 감지 후 일정 시간 지나면 기기 OFF", false)
  ]

  /** The item with `active` flipped exactly when its id is `id`. */
  function ToggleOne(it: AutomationItem, id: int): AutomationItem {
    if it.id == id then it.(active := !it.active) else it
  }

  /** `toggleItem(id)`: flip `active` on every item with that id; nothing else changes. */
  function ToggleItem(items: seq<AutomationItem>, id: int): (r: seq<AutomationItem>)
    ensures |r| == |items|
    ensures forall k :: 0 <= k < |r| ==> r[k].(active := items[k].active) == items[k]
    ensures forall k :: 0 <= k < |r| ==> (r[k].active != items[k].active <==> items[k].id == id)
  {
    seq(|items|, k requires 0 <= k < |items| => ToggleOne(items[k], id))
  }

  /** Toggling the same id twice is the identity; an absent id changes nothing. */
  lemma ToggleItemInvolution(items: seq<AutomationItem>, id: int)
    ensures ToggleItem(ToggleItem(items, id), id) == items
    ensures (forall k :: 0 <= k < |items| ==> items[k].id != id) ==> ToggleItem(items, id) == items
  {
  }

  /** The positions of the active items. */
  function ActiveIndices(items: seq<AutomationItem>): set<int> {
    set k | 0 <= k < |items| && items[k].active
  }

  /** `items.filter(i => i.active).length`: the number of positions holding an active item. */
  function ActiveCount(items: seq<AutomationItem>): (n: nat)
    ensures n <= |items|
    ensures n == |ActiveIndices(items)|
    decreases |items|
  {
    if |items| == 0 then 0
    else
      var init, last := items[..|items| - 1], items[|items| - 1];
      assert ActiveIndices(items) == ActiveIndices(init) + (if last.active then {|items| - 1} else {});
      ActiveCount(init) + (if last.active then 1 else 0)
  }

  /** The number of items with id `id` and the given `active` value. */
  function CountWith(items: seq<AutomationItem>, id: int, active: bool): nat
    decreases |items|
  {
    if |items| == 0 then 0
    else
      var last := items[|items| - 1];
      CountWith(items[..|items| - 1], id, active) + (if last.id == id && last.active == active then 1 else 0)
  }

  /** Toggling `id` turns its inactive items on and its active items off, and nothing else. */
  lemma {:induction false} ToggleCountDelta(items: seq<AutomationItem>, id: int)
    ensures ActiveCount(ToggleItem(items, id)) ==
            ActiveCount(items) + CountWith(items, id, false) - CountWith(items, id, true)
    decreases |items|
  {
    if |items| > 0 {
      var init := items[..|items| - 1];
      ToggleCountDelta(init, id);
      assert ToggleItem(items, id)[..|items| - 1] == ToggleItem(init, id);
    }
  }

  /** An id that appears exactly once, at `i`, moves the active count by one in the direction of the flip. */
  lemma {:induction false} CountWithSingle(items: seq<AutomationItem>, id: int, i: int)
    requires 0 <= i < |items| && items[i].id == id
    requires forall k :: 0 <= k < |items| && k != i ==> items[k].id != id
    ensures CountWith(items, id, items[i].active) == 1
    ensures CountWith(items, id, !items[i].active) == 0
    decreases |items|
  {
    var init := items[..|items| - 1];
    if i == |items| - 1 {
      NoIdNoCount(init, id);
    } else {
      CountWithSingle(init, id, i);
    }
  }

  lemma {:induction false} NoIdNoCount(items: seq<AutomationItem>, id: int)
    requires forall k :: 0 <= k < |items| ==> items[k].id != id
    ensures CountWith(items, id, true) == 0 && CountWith(items, id, false) == 0
    decreases |items|
  {
    if |items| > 0 {
      NoIdNoCount(items[..|items| - 1], id);
    }
  }

  /** Toggling a present, unique id changes the active count by exactly one. */
  lemma ToggleUniqueMovesCountByOne(items: seq<AutomationItem>, id: int, i: int)
    requires 0 <= i < |items| && items[i].id == id
    requires forall k :: 0 <= k < |items| && k != i ==> items[k].id != id
    ensures items[i].active ==> ActiveCount(ToggleItem(items, id)) == ActiveCount(items) - 1
    ensures !items[i].active ==> ActiveCount(ToggleItem(items, id)) == ActiveCount(items) + 1
  {
    ToggleCountDelta(items, id);
    CountWithSingle(items, id, i);
  }

  /** The built-in list: ids 1, 2, 3 and exactly two active. */
  lemma InitialShape()
    ensures |InitialAutomations| == 3
    ensures forall k :: 0 <= k < 3 ==> InitialAutomations[k].id == k + 1
    ensures ActiveCount(InitialAutomations) == 2
  {
  }
}
