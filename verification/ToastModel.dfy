/**
 The toast store of `use-toast.ts`: the reducer, the id counter, the removal timers and the
 components that listen, as one timed state machine.

 A generated id is the decimal rendering of the counter and is modelled as that number.
 */
module ToastModel {
  import opened Options

  const TOAST_LIMIT: nat := 5
  const TOAST_REMOVE_DELAY: nat := 5000
  const MAX_SAFE_INTEGER: nat := 9007199254740991

  datatype Toast = Toast(id: nat, open: bool, body: string)

  /** The argument of a dismissal: undefined, the empty string, or an id. */
  datatype Target = All | Blank | One(id: nat)

  datatype Action =
    | AddToast(toast: Toast)
    | UpdateToast(id: nat, open: Option<bool>, body: Option<string>)
    | DismissToast(target: Target)
    | RemoveToast(which: Option<nat>)

  /** A pending timeout: the toast it will remove, and when. */
  datatype Timer = Timer(id: nat, due: int)

  /** `timeouts` is `toastTimeouts`, from toast id to timer handle; `timers` are the timeouts the
      runtime has pending, by handle. `views` is what each component last rendered. */
  datatype State = State(now: int, count: nat, toasts: seq<Toast>,
                         timeouts: map<nat, nat>, timers: map<nat, Timer>, handles: nat,
                         listeners: seq<nat>, views: map<nat, seq<Toast>>)

  datatype Event =
    | Tick(ms: nat)
    | Show(body: string)
    | Update(id: nat, open: Option<bool>, text: Option<string>)
    | Dismiss(target: Target)
    | Fire(handle: nat)
    | Render(component: nat)
    | Mount(component: nat)
    | Unmount(component: nat)

  function Take(ts: seq<Toast>, n: nat): seq<Toast> { if |ts| <= n then ts else ts[..n] }

  function Without(ts: seq<Toast>, id: nat): seq<Toast> {
    if ts == [] then []
    else if ts[|ts| - 1].id == id then Without(ts[..|ts| - 1], id)
    else Without(ts[..|ts| - 1], id) + [ts[|ts| - 1]]
  }

  function Merged(t: Toast, open: Option<bool>, body: Option<string>): Toast {
    Toast(t.id, if open.Some? then open.value else t.open, if body.Some? then body.value else t.body)
  }

  function Updated(ts: seq<Toast>, id: nat, open: Option<bool>, body: Option<string>): seq<Toast> {
    seq(|ts|, i requires 0 <= i < |ts| => if ts[i].id == id then Merged(ts[i], open, body) else ts[i])
  }

  predicate Closes(target: Target, id: nat) { target == All || target == One(id) }

  function Closed(ts: seq<Toast>, target: Target): seq<Toast> {
    seq(|ts|, i requires 0 <= i < |ts| => if Closes(target, ts[i].id) then ts[i].(open := false) else ts[i])
  }

  /** What the reducer makes of the list of toasts. */
  function Reduced(ts: seq<Toast>, a: Action): seq<Toast> {
    match a
    case AddToast(t) => Take([t] + ts, TOAST_LIMIT)
    case UpdateToast(id, open, body) => Updated(ts, id, open, body)
    case DismissToast(target) => Closed(ts, target)
    case RemoveToast(None) => []
    case RemoveToast(Some(id)) => Without(ts, id)
  }

  /** addToRemoveQueue: the first dismissal of an id arms its timer, later ones do nothing. */
  function Armed(s: State, id: nat): State {
    if id in s.timeouts then s
    else s.(timeouts := s.timeouts[id := s.handles],
            timers := s.timers[s.handles := Timer(id, s.now + TOAST_REMOVE_DELAY)],
            handles := s.handles + 1)
  }

  function ArmedEach(s: State, ts: seq<Toast>): State {
    if ts == [] then s else Armed(ArmedEach(s, ts[..|ts| - 1]), ts[|ts| - 1].id)
  }

  /** The timers that the reducer arms on a dismissal. The empty id counts as no id here. */
  function ArmedFor(s: State, a: Action): State {
    if !a.DismissToast? then s
    else if a.target.One? then Armed(s, a.target.id)
    else ArmedEach(s, s.toasts)
  }

  /** Every listener is handed the new list, in order. */
  function Notified(views: map<nat, seq<Toast>>, ls: seq<nat>, ts: seq<Toast>): map<nat, seq<Toast>> {
    if ls == [] then views else Notified(views, ls[..|ls| - 1], ts)[ls[|ls| - 1] := ts]
  }

  function Dispatched(s: State, a: Action): State {
    var s1 := ArmedFor(s, a);
    var ts := Reduced(s1.toasts, a);
    s1.(toasts := ts, views := Notified(s1.views, s1.listeners, ts))
  }

  function NextId(count: nat): nat { (count + 1) % MAX_SAFE_INTEGER }

  function RemoveFirst(ls: seq<nat>, x: nat): seq<nat> {
    if ls == [] then [] else if ls[0] == x then ls[1..] else [ls[0]] + RemoveFirst(ls[1..], x)
  }

  /** A timer never fires early, and may fire late. A component mounts once, after its first render. */
  predicate Enabled(s: State, e: Event) {
    match e
    case Fire(h) => h in s.timers && s.timers[h].due <= s.now
    case Render(c) => c !in s.views
    case Mount(c) => c in s.views && c !in s.listeners
    case Unmount(c) => c in s.listeners
    case _ => true
  }

  function Step(s: State, e: Event): State {
    if !Enabled(s, e) then s
    else match e
      case Tick(ms) => s.(now := s.now + ms)
      case Show(body) =>
        var id := NextId(s.count);
        Dispatched(s.(count := id), AddToast(Toast(id, true, body)))
      case Update(id, open, body) => Dispatched(s, UpdateToast(id, open, body))
      case Dismiss(target) => Dispatched(s, DismissToast(target))
      case Fire(h) =>
        var id := s.timers[h].id;
        Dispatched(s.(timers := s.timers - {h}, timeouts := s.timeouts - {id}), RemoveToast(Some(id)))
      case Render(c) => s.(views := s.views[c := s.toasts])
      case Mount(c) => s.(listeners := s.listeners + [c])
      case Unmount(c) => s.(listeners := RemoveFirst(s.listeners, c))
  }

  /** The module as it is loaded. */
  predicate Initial(s: State) {
    s.count == 0 && s.toasts == [] && s.timeouts == map[] && s.timers == map[] && s.listeners == [] && s.views == map[]
  }

  function Loaded(): (s: State)
    ensures Initial(s)
  {
    State(0, 0, [], map[], map[], 0, [], map[])
  }

  /** How many ids the first k events generate. */
  function Shown(es: seq<Event>, k: nat): nat
    requires k <= |es|
  {
    if k == 0 then 0 else Shown(es, k - 1) + (if es[k - 1].Show? then 1 else 0)
  }
}
