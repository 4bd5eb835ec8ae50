/** The notification queue: a reducer over the list of toasts and the queue that dispatches to it. */
module ToastContext {
  import opened Common
  import opened Types

  datatype ToastState = ToastState(toasts: seq<Toast>)

  const InitialToastState := ToastState([])

  /**
   * `ADD_TOAST` carries the id the reducer draws for the new toast; `UnknownToastAction`
   * stands for an action object of any other type.
   */
  datatype ToastAction =
    | AddToast(kind: ToastType, message: string, freshId: string)
    | RemoveToast(toastId: string)
    | UnknownToastAction

  /** `toasts.filter(toast => toast.id !== id)`. */
  function WithoutToast(toasts: seq<Toast>, id: string): (r: seq<Toast>)
    ensures forall t :: t in r <==> t in toasts && t.id != id
    ensures |r| <= |toasts|
  {
    if |toasts| == 0 then []
    else
      var last := toasts[|toasts| - 1];
      WithoutToast(toasts[..|toasts| - 1], id) + (if last.id != id then [last] else [])
  }

  function ToastReducer(s: ToastState, a: ToastAction): (r: ToastState)
    ensures a.AddToast? ==>
      |r.toasts| == |s.toasts| + 1 && r.toasts[..|s.toasts|] == s.toasts
      && r.toasts[|s.toasts|] == Toast(a.freshId, a.kind, a.message)
    ensures a.RemoveToast? ==> r.toasts == WithoutToast(s.toasts, a.toastId)
    ensures a.UnknownToastAction? ==> r == s
  {
    match a
    case AddToast(kind, message, freshId) => s.(toasts := s.toasts + [Toast(freshId, kind, message)])
    case RemoveToast(id) => s.(toasts := WithoutToast(s.toasts, id))
    case UnknownToastAction => s
  }

  /** Removal keeps the surviving toasts in their order: it distributes over concatenation. */
  lemma {:induction false} WithoutToastConcat(a: seq<Toast>, b: seq<Toast>, id: string)
    ensures WithoutToast(a + b, id) == WithoutToast(a, id) + WithoutToast(b, id)
    decreases |b|
  {
    if |b| == 0 {
      assert a + b == a;
    } else {
      var b', x := b[..|b| - 1], b[|b| - 1];
      SplitLast(a, b);
      WithoutToastSnoc(a + b', x, id);
      WithoutToastConcat(a, b', id);
      ConcatAssoc(WithoutToast(a, id), WithoutToast(b', id), if x.id != id then [x] else []);
    }
  }

  /** Appending one toast appends it to the survivors exactly when its id differs. */
  lemma WithoutToastSnoc(s: seq<Toast>, x: Toast, id: string)
    ensures WithoutToast(s + [x], id) == WithoutToast(s, id) + (if x.id != id then [x] else [])
  {
    DropSnoc(s, x);
  }

  /** Removing an id that no toast carries leaves the list unchanged. */
  lemma {:induction false} RemoveAbsentIsIdentity(toasts: seq<Toast>, id: string)
    requires forall t :: t in toasts ==> t.id != id
    ensures WithoutToast(toasts, id) == toasts
  {
    if |toasts| > 0 {
      var init, last := toasts[..|toasts| - 1], toasts[|toasts| - 1];
      assert toasts == init + [last];
      forall t | t in init ensures t.id != id {
        assert t in toasts;
      }
      RemoveAbsentIsIdentity(init, id);
      assert last.id != id by {
        assert last in toasts;
      }
    }
  }

  /** Showing a toast under a fresh id and then removing that id restores the original list. */
  lemma AddThenRemoveRestores(s: ToastState, kind: ToastType, message: string, freshId: string)
    requires forall t :: t in s.toasts ==> t.id != freshId
    ensures ToastReducer(ToastReducer(s, AddToast(kind, message, freshId)), RemoveToast(freshId)) == s
  {
    var added := s.toasts + [Toast(freshId, kind, message)];
    assert added[..|added| - 1] == s.toasts;
    RemoveAbsentIsIdentity(s.toasts, freshId);
  }

  /** The provider's queue: `showToast` and `removeToast` dispatch to the reducer. */
  class ToastQueue {
    var toasts: seq<Toast>

    function State(): ToastState
      reads this
    {
      ToastState(toasts)
    }

    constructor ()
      ensures State() == InitialToastState
    {
      toasts := [];
    }

    method ShowToast(kind: ToastType, message: string, freshId: string)
      modifies this
      ensures State() == ToastReducer(old(State()), AddToast(kind, message, freshId))
      ensures toasts == old(toasts) + [Toast(freshId, kind, message)]
    {
      toasts := ToastReducer(State(), AddToast(kind, message, freshId)).toasts;
    }

    method RemoveToast(id: string)
      modifies this
      ensures State() == ToastReducer(old(State()), ToastAction.RemoveToast(id))
      ensures toasts == WithoutToast(old(toasts), id)
    {
      toasts := ToastReducer(State(), ToastAction.RemoveToast(id)).toasts;
    }
  }
}
