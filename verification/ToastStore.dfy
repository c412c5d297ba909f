/** The code of `use-toast.ts` over its module variables. */
module ToastStore {
  import opened Options
  import opened ToastModel
  import opened ToastProperties

  class Store {
    var now: int
    var count: nat
    var toastTimeouts: map<nat, nat>
    var timers: map<nat, Timer>
    var handles: nat
    var memoryState: seq<Toast>
    var listeners: seq<nat>
    var views: map<nat, seq<Toast>>

    function View(): State
      reads this
    {
      State(now, count, memoryState, toastTimeouts, timers, handles, listeners, views)
    }

    constructor (now: int)
      ensures Initial(View())
    {
      this.now, count, handles := now, 0, 0;
      toastTimeouts, timers, memoryState, listeners, views := map[], map[], [], [], map[];
    }

    method GenId() returns (id: nat)
      modifies this`count
      ensures id == count == NextId(old(count))
    {
      count := (count + 1) % MAX_SAFE_INTEGER;
      id := count;
    }

    method AddToRemoveQueue(toastId: nat)
      modifies this`toastTimeouts, this`timers, this`handles
      ensures View() == Armed(old(View()), toastId)
    {
      if toastId in toastTimeouts {
        return;
      }
      var timeout := handles;
      handles := handles + 1;
      timers := timers[timeout := Timer(toastId, now + TOAST_REMOVE_DELAY)];
      toastTimeouts := toastTimeouts[toastId := timeout];
    }

    /** The reducer, with the timers it arms while reducing a dismissal. */
    method Reduce(action: Action) returns (toasts: seq<Toast>)
      modifies this`toastTimeouts, this`timers, this`handles
      ensures View() == ArmedFor(old(View()), action)
      ensures toasts == Reduced(memoryState, action)
      ensures action == RemoveToast(None) ==> toasts == []
    {
      match action {
        case AddToast(toast) =>
          toasts := Take([toast] + memoryState, TOAST_LIMIT);
        case UpdateToast(id, open, body) =>
          toasts := Updated(memoryState, id, open, body);
        case DismissToast(target) =>
          if target.One? {
            AddToRemoveQueue(target.id);
          } else {
            for i := 0 to |memoryState|
              invariant memoryState == old(memoryState) && now == old(now) && count == old(count)
              invariant listeners == old(listeners) && views == old(views)
              invariant View() == ArmedEach(old(View()), memoryState[..i])
            {
              assert memoryState[..i + 1][..i] == memoryState[..i];
              AddToRemoveQueue(memoryState[i].id);
            }
            assert memoryState[..|memoryState|] == memoryState;
          }
          toasts := Closed(memoryState, target);
        case RemoveToast(which) =>
          toasts := if which.None? then [] else Without(memoryState, which.value);
      }
    }

    method Dispatch(action: Action)
      modifies this
      ensures View() == Dispatched(old(View()), action)
    {
      memoryState := Reduce(action);
      ghost var before := views;
      for i := 0 to |listeners|
        invariant listeners == old(listeners)
        invariant views == Notified(before, listeners[..i], memoryState)
        invariant View().(views := before) == Dispatched(old(View()), action).(views := before)
      {
        assert listeners[..i + 1][..i] == listeners[..i];
        views := views[listeners[i] := memoryState];
      }
      assert listeners[..|listeners|] == listeners;
    }

    method ShowToast(body: string) returns (id: nat)
      modifies this
      ensures View() == Step(old(View()), Show(body))
      ensures id == count
    {
      id := GenId();
      Dispatch(AddToast(Toast(id, true, body)));
    }

    method UpdateShown(id: nat, open: Option<bool>, body: Option<string>)
      modifies this
      ensures View() == Step(old(View()), Update(id, open, body))
    {
      Dispatch(UpdateToast(id, open, body));
    }

    method DismissShown(target: Target)
      modifies this
      ensures View() == Step(old(View()), Dismiss(target))
      ensures |memoryState| == |old(memoryState)|
      ensures forall i | 0 <= i < |memoryState| ::
                var t := old(memoryState)[i];
                memoryState[i] == if target == All || target == One(t.id) then Toast(t.id, false, t.body) else t
    {
      DispatchTouches(View(), DismissToast(target));
      Dispatch(DismissToast(target));
    }

    /** The callback that addToRemoveQueue gives to setTimeout. */
    method TimerFires(handle: nat)
      requires Enabled(View(), Fire(handle))
      modifies this
      ensures View() == Step(old(View()), Fire(handle))
    {
      var toastId := timers[handle].id;
      timers := timers - {handle};
      toastTimeouts := toastTimeouts - {toastId};
      Dispatch(RemoveToast(Some(toastId)));
    }

    // The three moments of a component that uses the hook.

    method FirstRender(component: nat)
      requires Enabled(View(), Render(component))
      modifies this`views
      ensures View() == Step(old(View()), Render(component))
    {
      views := views[component := memoryState];
    }

    method EffectRuns(component: nat)
      requires Enabled(View(), Mount(component))
      modifies this`listeners
      ensures View() == Step(old(View()), Mount(component))
    {
      listeners := listeners + [component];
    }

    method CleanupRuns(component: nat)
      requires Enabled(View(), Unmount(component))
      modifies this`listeners
      ensures View() == Step(old(View()), Unmount(component))
    {
      listeners := RemoveFirst(listeners, component);
    }
  }
}
