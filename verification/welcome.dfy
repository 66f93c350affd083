/**
 * The welcome modal (components/WelcomeModel.tsx): on mount it opens once if
 * the login page left a timestamp less than 30 seconds old, shows the stored
 * name, and removes both keys whatever it decided.
 */
module WelcomeModal {
  import opened Wrappers
  import opened Storage
  import Text

  const AtKey := "purecare_welcome_at"
  const NameKey := "purecare_welcome_name"
  const OpenWindowMs := 30000

  const GreetingHead := "어서 오세요"
  const GreetingTail := " 👋"

  datatype Modal = Modal(open: bool, name: string)

  const Closed := Modal(false, "")

  /** `Number(localStorage.getItem('purecare_welcome_at') || '0')`. */
  function StoredAt(st: Store): (at: Text.JsNumber)
    ensures !Truthy(GetItem(st, AtKey)) ==> at == Text.Finite(0)
  {
    var raw := GetItem(st, AtKey);
    if Truthy(raw) then Text.ToNumber(raw.value) else Text.ToNumber("0")
  }

  /** `localStorage.getItem('purecare_welcome_name') || ''`. */
  function StoredName(st: Store): (name: string)
    ensures NameKey !in st ==> name == ""
    ensures NameKey in st ==> name == st[NameKey]
  {
    if Truthy(GetItem(st, NameKey)) then st[NameKey] else ""
  }

  /** The mount effect: the open decision, and the store with both keys removed. */
  function CheckOnMount(st: Store, now: int): (r: (Modal, Store))
    ensures r.0.open <==> StoredAt(st).IsTruthy() && now - StoredAt(st).value < OpenWindowMs
    ensures r.0.open ==> r.0.name == StoredName(st)
    ensures !r.0.open ==> r.0 == Closed
    ensures AtKey !in r.1 && NameKey !in r.1
    ensures r.1 - {AtKey, NameKey} == st - {AtKey, NameKey}
  {
    var at := StoredAt(st);
    var modal := if at.IsTruthy() && now - at.value < OpenWindowMs then Modal(true, StoredName(st)) else Closed;
    (modal, RemoveItem(RemoveItem(st, AtKey), NameKey))
  }

  /**
   * A timestamp that is missing, or whose text has no digit 1–9 (empty, `0`,
   * `000`, `NaN`, any non-numeric text), never opens the modal.
   */
  lemma NoTimestampStaysClosed(st: Store, now: int)
    requires AtKey in st ==> forall k :: 0 <= k < |st[AtKey]| ==> !Text.IsNonZeroDigit(st[AtKey][k])
    ensures CheckOnMount(st, now).0 == Closed
  {
  }

  /** The stored text `0` in particular keeps the modal closed, whatever the clock says. */
  lemma StoredZeroStaysClosed(st: Store, now: int)
    ensures CheckOnMount(st[AtKey := "0"], now).0 == Closed
  {
    NoTimestampStaysClosed(st[AtKey := "0"], now);
  }

  /** What the login page writes (`String(Date.now())` and the name) opens the modal within 30 s, with that name. */
  lemma FreshLoginOpens(st: Store, t: nat, name: string, now: int)
    requires t > 0
    ensures var st' := st[AtKey := Text.NatToString(t)][NameKey := name];
            var m := CheckOnMount(st', now).0;
            m.open <==> now - t < OpenWindowMs
  {
    var st' := st[AtKey := Text.NatToString(t)][NameKey := name];
    Text.NumberOfString(t);
    assert GetItem(st', AtKey) == Some(Text.NatToString(t));
  }

  /** The modal is one-shot: a second mount finds no keys and stays closed. */
  lemma OneShot(st: Store, now1: int, now2: int)
    ensures CheckOnMount(CheckOnMount(st, now1).1, now2).0 == Closed
  {
  }

  /** The heading: `어서 오세요, <name> 님! 👋` for a non-empty name, else `어서 오세요! 👋`. */
  function Greeting(name: string): (g: string)
    ensures name == "" ==> g == GreetingHead + "!" + GreetingTail
    ensures name != "" ==> g == GreetingHead + ", " + name + " 님!" + GreetingTail
  {
    GreetingHead + (if name != "" then ", " + name + " 님!" else "!") + GreetingTail
  }

  /** The name can be read back out of a greeting, so distinct names greet differently. */
  lemma GreetingShowsName(name: string)
    requires name != ""
    ensures var g := Greeting(name);
            |g| == |GreetingHead| + 2 + |name| + 3 + |GreetingTail| &&
            g[|GreetingHead| + 2..|GreetingHead| + 2 + |name|] == name
  {
  }

  /** Pressing the confirm button. */
  function Confirm(m: Modal): (m': Modal)
    ensures !m'.open && m'.name == m.name
  {
    m.(open := false)
  }

  /** What is rendered: nothing when closed, else the greeting. */
  function Render(m: Modal): (out: Option<string>)
    ensures out.None? <==> !m.open
    ensures m.open ==> out == Some(Greeting(m.name))
  {
    if m.open then Some(Greeting(m.name)) else None
  }

  /** After confirm, nothing is rendered. */
  lemma ConfirmHides(m: Modal)
    ensures Render(Confirm(m)) == None
  {
  }
}
