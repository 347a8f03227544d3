/** The toast notifications (src/components/ui/ToastContainer.tsx): the
    module-wide id counter, the list the mounted container shows, and the
    `toast.*` functions that reach it through the registered `addToastFn`. */
module ToastContainer {
  import opened Seqs
  import opened Text

  datatype ToastType = Success | Error | Warning | Info

  datatype ToastData = ToastData(id: string, kind: ToastType, title: string,
                                 message: Option<string>, duration: Option<int>)

  const IdPrefix := "toast-"

  /** The id `toast-N` of the N-th toast. */
  function ToastIdOf(n: nat): (r: string)
    ensures IsPrefix(IdPrefix, r) && r[|IdPrefix|..] == NatToString(n)
  {
    IdPrefix + NatToString(n)
  }

  /** Different counter values give different ids. */
  lemma ToastIdInjective(m: nat, n: nat)
    requires ToastIdOf(m) == ToastIdOf(n)
    ensures m == n
  {
    assert ToastIdOf(m)[|IdPrefix|..] == ToastIdOf(n)[|IdPrefix|..];
    NatToStringInjective(m, n);
  }

  /** `id` was handed out while the counter went up to `n`. */
  ghost predicate Issued(id: string, n: nat) {
    exists k :: 1 <= k <= n && id == ToastIdOf(k)
  }

  /** The next id was never handed out before. */
  lemma NextIdIsFresh(n: nat)
    ensures !Issued(ToastIdOf(n + 1), n)
  {
    if Issued(ToastIdOf(n + 1), n) {
      var k :| 1 <= k <= n && ToastIdOf(n + 1) == ToastIdOf(k);
      ToastIdInjective(n + 1, k);
    }
  }

  /** `prev.filter(toast => toast.id !== id)`. */
  function RemoveToast(toasts: seq<ToastData>, id: string): (r: seq<ToastData>)
    ensures forall t :: t in r ==> t in toasts && t.id != id
    ensures forall t :: t in toasts && t.id != id ==> t in r
    ensures Sublist(r, toasts)
  {
    Filter((t: ToastData) => t.id != id, toasts)
  }

  /** Removing an id nobody has leaves the list as it was. */
  lemma RemoveAbsentId(toasts: seq<ToastData>, id: string)
    requires forall t :: t in toasts ==> t.id != id
    ensures RemoveToast(toasts, id) == toasts
  {
    FilterKeepsAll((t: ToastData) => t.id != id, toasts);
  }

  /** Adding a toast with a fresh id and removing that id restores the list. */
  lemma AddThenRemove(toasts: seq<ToastData>, t: ToastData)
    requires forall x :: x in toasts ==> x.id != t.id
    ensures RemoveToast(toasts + [t], t.id) == toasts
  {
    var keep := (x: ToastData) => x.id != t.id;
    FilterAppend(keep, toasts, [t]);
    FilterKeepsAll(keep, toasts);
    assert Filter(keep, [t]) == [] by {
      assert [t][1..] == [];
    }
  }

  class ToastCenter {
    /** The module-level `toastId`. */
    var toastId: nat
    /** The mounted container's `toasts`. */
    var toasts: seq<ToastData>
    /** Whether a container has set `addToastFn`. */
    var registered: bool

    /** Every shown toast carries an id the counter has handed out. */
    ghost predicate Valid()
      reads this
    {
      forall i :: 0 <= i < |toasts| ==> Issued(toasts[i].id, toastId)
    }

    /** Module load: the counter at 0, no container yet. */
    constructor ()
      ensures toastId == 0 && toasts == [] && !registered && Valid()
    {
      toastId, toasts, registered := 0, [], false;
    }

    /** A container renders and sets `addToastFn`. */
    method Mount()
      requires Valid()
      modifies this
      ensures registered && toasts == old(toasts) && toastId == old(toastId) && Valid()
    {
      registered := true;
    }

    /** `addToast(toast)`: the counter goes up and the toast is appended
        under the new id. */
    method AddToast(kind: ToastType, title: string, message: Option<string>, duration: Option<int>)
      requires Valid()
      modifies this
      ensures toastId == old(toastId) + 1
      ensures toasts == old(toasts) + [ToastData(ToastIdOf(toastId), kind, title, message, duration)]
      ensures forall t :: t in old(toasts) ==> t.id != ToastIdOf(toastId)
      ensures registered == old(registered) && Valid()
    {
      NextIdIsFresh(toastId);
      toastId := toastId + 1;
      toasts := toasts + [ToastData(ToastIdOf(toastId), kind, title, message, duration)];
      forall i | 0 <= i < |toasts| ensures Issued(toasts[i].id, toastId) {
        if i < |toasts| - 1 {
          assert toasts[i] == old(toasts)[i];
          var k :| 1 <= k <= old(toastId) && toasts[i].id == ToastIdOf(k);
        } else {
          assert toasts[i].id == ToastIdOf(toastId);
        }
      }
    }

    /** `removeToast(id)`, as the close button of a toast calls it. */
    method RemoveById(id: string)
      requires Valid()
      modifies this
      ensures toasts == RemoveToast(old(toasts), id)
      ensures toastId == old(toastId) && registered == old(registered) && Valid()
    {
      toasts := RemoveToast(toasts, id);
      forall i | 0 <= i < |toasts| ensures Issued(toasts[i].id, toastId) {
        assert toasts[i] in old(toasts);
      }
    }

    /** The body every `toast.*` shares: nothing happens before a container
        has registered. */
    method Dispatch(kind: ToastType, title: string, message: Option<string>, duration: Option<int>)
      requires Valid()
      modifies this
      ensures !old(registered) ==> toasts == old(toasts) && toastId == old(toastId)
      ensures old(registered) ==> (toastId == old(toastId) + 1 &&
                  toasts == old(toasts) + [ToastData(ToastIdOf(toastId), kind, title, message, duration)])
      ensures registered == old(registered) && Valid()
    {
      if registered {
        AddToast(kind, title, message, duration);
      }
    }

    method ToastSuccess(title: string, message: Option<string>, duration: Option<int>)
      requires Valid()
      modifies this
      ensures !old(registered) ==> toasts == old(toasts) && toastId == old(toastId)
      ensures old(registered) ==> (toastId == old(toastId) + 1 &&
                  toasts == old(toasts) + [ToastData(ToastIdOf(toastId), Success, title, message, duration)])
      ensures registered == old(registered) && Valid()
    {
      Dispatch(Success, title, message, duration);
    }

    method ToastError(title: string, message: Option<string>, duration: Option<int>)
      requires Valid()
      modifies this
      ensures !old(registered) ==> toasts == old(toasts) && toastId == old(toastId)
      ensures old(registered) ==> (toastId == old(toastId) + 1 &&
                  toasts == old(toasts) + [ToastData(ToastIdOf(toastId), Error, title, message, duration)])
      ensures registered == old(registered) && Valid()
    {
      Dispatch(Error, title, message, duration);
    }

    method ToastWarning(title: string, message: Option<string>, duration: Option<int>)
      requires Valid()
      modifies this
      ensures !old(registered) ==> toasts == old(toasts) && toastId == old(toastId)
      ensures old(registered) ==> (toastId == old(toastId) + 1 &&
                  toasts == old(toasts) + [ToastData(ToastIdOf(toastId), Warning, title, message, duration)])
      ensures registered == old(registered) && Valid()
    {
      Dispatch(Warning, title, message, duration);
    }

    method ToastInfo(title: string, message: Option<string>, duration: Option<int>)
      requires Valid()
      modifies this
      ensures !old(registered) ==> toasts == old(toasts) && toastId == old(toastId)
      ensures old(registered) ==> (toastId == old(toastId) + 1 &&
                  toasts == old(toasts) + [ToastData(ToastIdOf(toastId), Info, title, message, duration)])
      ensures registered == old(registered) && Valid()
    {
      Dispatch(Info, title, message, duration);
    }
  }

  /** A toast that is shown and then closed leaves the list as before. */
  method AddThenClose(center: ToastCenter, kind: ToastType, title: string)
    requires center.Valid()
    modifies center
    ensures center.toasts == old(center.toasts) && center.Valid()
  {
    center.AddToast(kind, title, None, None);
    var id := ToastIdOf(center.toastId);
    AddThenRemove(old(center.toasts), center.toasts[|center.toasts| - 1]);
    center.RemoveById(id);
  }
}
