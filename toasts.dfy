/**
  * The toast notification list (src/context/ToastContext.jsx): a list of
  * `{id, message, type}` records, a counter that issues ids, `addToast`,
  * `dismiss`, and the `toast.*` helpers with their default durations.
  */
module Toasts {
  import opened Wrappers
  import opened Sequences

  /** The four kinds of toast the helpers produce. */
  datatype ToastType = Success | Error | Info | Warn

  /** One entry of the toast list. */
  datatype Toast = Toast(id: nat, message: string, kind: ToastType)

  /**
    * A JavaScript argument: left out (undefined), passed as null, or given.
    * Default parameters replace only `Undefined`; `??` replaces both.
    */
  datatype Arg<T> = Undefined | Null | Given(value: T)

  /** `addToast`'s default `duration`, in milliseconds. */
  const DefaultDuration: int := 3500
  /** The `error` helper's default duration, in milliseconds. */
  const ErrorDuration: int := 5000

  /** A default parameter value: used only when the argument is undefined. */
  function WithDefault<T>(arg: Arg<T>, default: T): (r: Arg<T>)
    ensures arg.Undefined? ==> r == Given(default)
    ensures !arg.Undefined? ==> r == arg
  {
    if arg.Undefined? then Given(default) else arg
  }

  /** `arg ?? default`: used when the argument is undefined or null. */
  function OrElse<T>(arg: Arg<T>, default: T): (r: Arg<T>)
    ensures r.Given?
    ensures arg.Given? ==> r == arg
    ensures !arg.Given? ==> r == Given(default)
  {
    if arg.Given? then arg else Given(default)
  }

  /**
    * `duration > 0`: whether `addToast` schedules the automatic dismissal.
    * `null > 0` is false in JavaScript, so a null duration never schedules it.
    */
  predicate SchedulesRemoval(duration: Arg<int>) {
    duration.Given? && duration.value > 0
  }

  /** The duration `addToast` ends up with when called through the helper for `kind`. */
  function HelperDuration(kind: ToastType, dur: Arg<int>): (d: Arg<int>)
    ensures kind == Error ==> d.Given?
    ensures dur.Given? ==> d == dur
    ensures dur.Undefined? ==> d == Given(if kind == Error then ErrorDuration else DefaultDuration)
    ensures dur.Null? ==> d == if kind == Error then Given(ErrorDuration) else Null
  {
    var passed := if kind == Error then OrElse(dur, ErrorDuration) else dur;
    WithDefault(passed, DefaultDuration)
  }

  /**
    * Which helper calls schedule an automatic dismissal: every call without a
    * duration does; a given duration does when it is positive; an explicit
    * null does only for `error`.
    */
  lemma HelperRemovalScheduled(kind: ToastType, dur: Arg<int>)
    ensures SchedulesRemoval(HelperDuration(kind, dur)) <==>
      dur.Undefined? || (dur.Given? && dur.value > 0) || (dur.Null? && kind == Error)
  {
  }

  /** `prev.filter(t => t.id !== id)`. */
  function Dismissed(toasts: seq<Toast>, id: nat): (r: seq<Toast>)
    ensures |r| <= |toasts|
    ensures forall t :: t in r <==> t in toasts && t.id != id
  {
    if toasts == [] then []
    else
      var rest := Dismissed(toasts[1..], id);
      if toasts[0].id != id then [toasts[0]] + rest else rest
  }

  /** The ids in the list strictly increase from front to back. */
  ghost predicate IdsIncreasing(toasts: seq<Toast>) {
    forall i, j :: 0 <= i < j < |toasts| ==> toasts[i].id < toasts[j].id
  }

  /** Strictly increasing ids are pairwise distinct. */
  lemma IncreasingIdsUnique(toasts: seq<Toast>, i: int, j: int)
    requires IdsIncreasing(toasts)
    requires 0 <= i < |toasts| && 0 <= j < |toasts| && i != j
    ensures toasts[i].id != toasts[j].id
  {
    if j < i {
      assert toasts[j].id < toasts[i].id;
    }
  }

  /** Dismissing keeps the other toasts in their order and adds nothing. */
  lemma {:induction false} DismissedIsSubsequence(toasts: seq<Toast>, id: nat)
    ensures IsSubsequence(Dismissed(toasts, id), toasts)
    decreases |toasts|
  {
    if toasts != [] {
      var rest := Dismissed(toasts[1..], id);
      DismissedIsSubsequence(toasts[1..], id);
      if toasts[0].id == id && rest != [] {
        assert rest[0] in toasts[1..];
        assert rest[0] != toasts[0];
      }
    }
  }

  /** Dismissing an id that is not in the list changes nothing. */
  lemma {:induction false} DismissedAbsent(toasts: seq<Toast>, id: nat)
    requires forall t :: t in toasts ==> t.id != id
    ensures Dismissed(toasts, id) == toasts
    decreases |toasts|
  {
    if toasts != [] {
      DismissedAbsent(toasts[1..], id);
      assert toasts == [toasts[0]] + toasts[1..];
    }
  }

  /** Dismissing twice is dismissing once. */
  lemma DismissedIdempotent(toasts: seq<Toast>, id: nat)
    ensures Dismissed(Dismissed(toasts, id), id) == Dismissed(toasts, id)
  {
    DismissedAbsent(Dismissed(toasts, id), id);
  }

  /** Dismissing keeps the ids strictly increasing. */
  lemma {:induction false} DismissedKeepsIdsIncreasing(toasts: seq<Toast>, id: nat)
    requires IdsIncreasing(toasts)
    ensures IdsIncreasing(Dismissed(toasts, id))
    decreases |toasts|
  {
    if toasts != [] {
      var rest := Dismissed(toasts[1..], id);
      DismissedKeepsIdsIncreasing(toasts[1..], id);
      if toasts[0].id != id {
        var r := [toasts[0]] + rest;
        forall i, j | 0 <= i < j < |r|
          ensures r[i].id < r[j].id
        {
          if i == 0 {
            assert r[j] in toasts[1..];
          }
        }
      }
    }
  }

  /**
    * The toast provider's state. `nextId` is the counter that `addToast`
    * pre-increments; `toasts` is the rendered list.
    */
  class ToastStore {
    var nextId: nat
    var toasts: seq<Toast>

    /** Ids are issued in increasing order and none exceeds the counter. */
    ghost predicate Valid()
      reads this
    {
      IdsIncreasing(toasts) && forall t :: t in toasts ==> 0 < t.id <= nextId
    }

    /** An empty list with the counter at 0. */
    constructor ()
      ensures Valid()
      ensures nextId == 0 && toasts == []
    {
      nextId := 0;
      toasts := [];
    }

    /**
      * `addToast(message, type = 'info', duration = 3500)`: issues the next id,
      * appends the record and reports whether the timed dismissal is scheduled.
      * The type is `None` when left out; it is never null, since `addToast`
      * is reached only through the helpers, which always pass one.
      */
    method AddToast(message: string, kind: Option<ToastType>, duration: Arg<int>)
      returns (id: nat, scheduled: bool)
      requires Valid()
      modifies this
      ensures Valid()
      ensures id == old(nextId) + 1 && nextId == id
      ensures forall t :: t in old(toasts) ==> t.id < id
      ensures kind.Some? ==> toasts == old(toasts) + [Toast(id, message, kind.value)]
      ensures kind.None? ==> toasts == old(toasts) + [Toast(id, message, Info)]
      ensures scheduled == SchedulesRemoval(WithDefault(duration, DefaultDuration))
    {
      nextId := nextId + 1;
      id := nextId;
      var t := Toast(id, message, if kind.Some? then kind.value else Info);
      toasts := toasts + [t];
      var d := WithDefault(duration, DefaultDuration);
      scheduled := d.Given? && d.value > 0;
    }

    /** `dismiss(id)`: removes every toast with that id. */
    method Dismiss(id: nat)
      requires Valid()
      modifies this
      ensures Valid()
      ensures nextId == old(nextId)
      ensures toasts == Dismissed(old(toasts), id)
    {
      DismissedKeepsIdsIncreasing(toasts, id);
      toasts := Dismissed(toasts, id);
    }

    /** `toast.success(msg, dur)`. */
    method ShowSuccess(msg: string, dur: Arg<int>) returns (id: nat, scheduled: bool)
      requires Valid()
      modifies this
      ensures Valid() && id == old(nextId) + 1 && nextId == id
      ensures toasts == old(toasts) + [Toast(id, msg, Success)]
      ensures scheduled == SchedulesRemoval(HelperDuration(Success, dur))
    {
      id, scheduled := AddToast(msg, Some(Success), dur);
    }

    /** `toast.error(msg, dur)`: the duration defaults to 5000 when undefined or null. */
    method ShowError(msg: string, dur: Arg<int>) returns (id: nat, scheduled: bool)
      requires Valid()
      modifies this
      ensures Valid() && id == old(nextId) + 1 && nextId == id
      ensures toasts == old(toasts) + [Toast(id, msg, Error)]
      ensures scheduled == SchedulesRemoval(HelperDuration(Error, dur))
    {
      id, scheduled := AddToast(msg, Some(Error), OrElse(dur, ErrorDuration));
    }

    /** `toast.info(msg, dur)`. */
    method ShowInfo(msg: string, dur: Arg<int>) returns (id: nat, scheduled: bool)
      requires Valid()
      modifies this
      ensures Valid() && id == old(nextId) + 1 && nextId == id
      ensures toasts == old(toasts) + [Toast(id, msg, Info)]
      ensures scheduled == SchedulesRemoval(HelperDuration(Info, dur))
    {
      id, scheduled := AddToast(msg, Some(Info), dur);
    }

    /** `toast.warn(msg, dur)`. */
    method ShowWarn(msg: string, dur: Arg<int>) returns (id: nat, scheduled: bool)
      requires Valid()
      modifies this
      ensures Valid() && id == old(nextId) + 1 && nextId == id
      ensures toasts == old(toasts) + [Toast(id, msg, Warn)]
      ensures scheduled == SchedulesRemoval(HelperDuration(Warn, dur))
    {
      id, scheduled := AddToast(msg, Some(Warn), dur);
    }
  }
}
