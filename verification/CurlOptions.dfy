/** The option table of a curl wrapper: which options the wrapper keeps alive for a handle. */
module CurlOptions {
  /** libcurl numbers an option `type * 10000 + slot`. */
  const TYPE := 10000

  /** An option to set. `byWrapper` options let curl keep addresses of their data and have to be
      kept; of the others curl takes a copy. Options are compared by identity. */
  class Option {
    const ids: seq<nat>
    const byWrapper: bool

    constructor (ids: seq<nat>, byWrapper: bool)
      ensures this.ids == ids && this.byWrapper == byWrapper
    {
      this.ids := ids;
      this.byWrapper := byWrapper;
    }
  }

  type Table = seq<Option?>

  function Slots(o: Option): (slots: seq<nat>)
    ensures |slots| == |o.ids|
  {
    seq(|o.ids|, i requires 0 <= i < |o.ids| => SlotOf(o.ids[i]))
  }

  ghost predicate NoDuplicates<T>(s: seq<T>) {
    forall i, j :: 0 <= i < j < |s| ==> s[i] != s[j]
  }

  /** libcurl knows every option: its slot is below the number of options. */
  predicate Fits(o: Option, size: nat) {
    |o.ids| > 0 && forall i :: 0 <= i < |o.ids| ==> Slots(o)[i] < size
  }

  ghost predicate AllFit(t: Table) {
    forall s :: 0 <= s < |t| && t[s] != null ==> Fits(t[s], |t|)
  }

  /** An option in the table occupies its slots, all of them and no others. */
  ghost predicate Valid(t: Table) {
    AllFit(t) &&
    forall s :: 0 <= s < |t| && t[s] != null ==> s in Slots(t[s]) && forall k :: k in Slots(t[s]) ==> t[k] == t[s]
  }

  ghost predicate Live(t: Table, o: Option) {
    o in t
  }

  function Without(t: Table, slots: seq<nat>): (r: Table)
    ensures |r| == |t|
  {
    seq(|t|, k requires 0 <= k < |t| => if k in slots then null else t[k])
  }

  /** The option at `slot` can be taken out without tripping an assertion. */
  ghost predicate Removable(t: Table, slot: nat)
    requires slot < |t| && AllFit(t)
  {
    t[slot] != null ==>
      slot in Slots(t[slot]) && NoDuplicates(Slots(t[slot])) &&
      forall k :: k in Slots(t[slot]) ==> t[k] == t[slot]
  }

  // ----- the handle -----------------------------------------------------------------------

  /** curl may refuse an option after taking it at some of its slots. */
  datatype Call = Set(option: Option) | Refuse(option: Option, taken: set<nat>) | Unset(option: Option)

  /** What a handle refers to after a series of calls. */
  function InForce(calls: seq<Call>): map<nat, Option> {
    if calls == [] then map[]
    else
      var before := InForce(calls[..|calls| - 1]);
      match calls[|calls| - 1]
      case Set(o) => before + map k | k in Slots(o) :: o
      case Refuse(o, taken) => before + map k | k in Slots(o) && k in taken :: o
      case Unset(o) => before - set k | k in Slots(o)
  }

  /** The kept option a handle refers to at a slot, if any. */
  function Referred(calls: seq<Call>, slot: nat): Option? {
    if slot in InForce(calls) && InForce(calls)[slot].byWrapper then InForce(calls)[slot] else null
  }

  /** The table keeps alive exactly what the handle refers to. */
  ghost predicate InStep(t: Table, calls: seq<Call>) {
    forall s :: 0 <= s < |t| ==> Referred(calls, s) == t[s]
  }

  /** The handle refers to nothing that the table does not keep alive at the same slot. */
  ghost predicate Backed(t: Table, calls: seq<Call>) {
    forall s :: 0 <= s < |t| && Referred(calls, s) != null ==> Referred(calls, s) == t[s]
  }

  /** The foreign handle, seen through the calls made on it. */
  class Handle {
    var calls: seq<Call>
    var open: bool

    constructor ()
      ensures calls == [] && open
    {
      calls, open := [], true;
    }

    /** `curl_easy_duphandle`: the copy refers to all that the original refers to. */
    constructor Duplicate(other: Handle)
      ensures calls == other.calls && open
    {
      calls, open := other.calls, true;
    }

    /** `curl_easy_reset`: as if nothing had been called yet. */
    method Reset()
      modifies this
      ensures calls == [] && open == old(open)
    {
      calls := [];
    }

    /** `curl_easy_cleanup`. */
    method Cleanup()
      modifies `open
      ensures !open
    {
      open := false;
    }

    method Set(o: Option)
      modifies `calls
      ensures calls == old(calls) + [Call.Set(o)]
    {
      calls := calls + [Call.Set(o)];
    }

    /** `curl_easy_setopt` for the slots of an option: all of them, or until one is refused. */
    method TrySet(o: Option, taken: set<nat>) returns (accepted: bool)
      modifies `calls
      ensures accepted <==> forall k :: k in Slots(o) ==> k in taken
      ensures calls == old(calls) + [if accepted then Call.Set(o) else Refuse(o, taken)]
    {
      accepted := forall k :: k in Slots(o) ==> k in taken;
      calls := calls + [if accepted then Call.Set(o) else Refuse(o, taken)];
    }

    method Unset(o: Option)
      modifies `calls
      ensures calls == old(calls) + [Call.Unset(o)]
    {
      calls := calls + [Call.Unset(o)];
    }
  }

  lemma SetInForce(calls: seq<Call>, o: Option, slot: nat)
    ensures Referred(calls + [Set(o)], slot) ==
              if slot in Slots(o) then if o.byWrapper then o else null else Referred(calls, slot)
  {
    assert (calls + [Set(o)])[..|calls|] == calls;
  }

  lemma RefuseInForce(calls: seq<Call>, o: Option, taken: set<nat>, slot: nat)
    ensures Referred(calls + [Refuse(o, taken)], slot) ==
              if slot in Slots(o) && slot in taken then if o.byWrapper then o else null else Referred(calls, slot)
  {
    assert (calls + [Refuse(o, taken)])[..|calls|] == calls;
  }

  lemma UnsetInForce(calls: seq<Call>, o: Option, slot: nat)
    ensures Referred(calls + [Unset(o)], slot) == if slot in Slots(o) then null else Referred(calls, slot)
  {
    assert (calls + [Unset(o)])[..|calls|] == calls;
  }

  // ----- the table ------------------------------------------------------------------------

  function SlotOf(id: nat): nat {
    id % TYPE
  }

  /** Every type of option numbers its slots from a multiple of ten thousand. */
  lemma SlotOfNumber(group: nat, slot: nat)
    requires slot < 10000
    ensures SlotOf(group * 10000 + slot) == slot
  {
  }

  /** Strips the type from a curl option number by repeated subtraction. */
  method OptionSlot(id: nat) returns (slot: nat)
    ensures slot == SlotOf(id)
  {
    slot := id;
    while slot >= TYPE
      invariant slot % TYPE == id % TYPE
    {
      slot := slot - TYPE;
    }
  }

  /** In a sound table the assertions hold for every slot exactly when no stored option
      lists one slot twice. */
  lemma AssertionsHold(t: Table)
    requires Valid(t)
    ensures (forall s :: 0 <= s < |t| ==> Removable(t, s)) <==>
            forall s :: 0 <= s < |t| && t[s] != null ==> NoDuplicates(Slots(t[s]))
  {
    forall s | 0 <= s < |t| && t[s] != null
      ensures Removable(t, s) <==> NoDuplicates(Slots(t[s]))
    {
    }
  }

  class OptionSet {
    const options: array<Option?>

    constructor (size: nat)
      ensures fresh(options) && options.Length == size
      ensures forall s :: 0 <= s < size ==> options[s] == null
      ensures Valid(options[..]) && InStep(options[..], [])
    {
      options := new Option?[size](_ => null);
    }

    /** Copies another table, cloning the option of every slot on its own. The copy is a
        sound table exactly when no option of the original occupies two slots. */
    constructor Copy(other: OptionSet)
      requires Valid(other.options[..])
      ensures fresh(options) && options.Length == other.options.Length
      ensures forall s :: 0 <= s < options.Length ==>
                (options[s] == null <==> other.options[s] == null) &&
                (options[s] != null ==>
                   fresh(options[s]) && options[s].ids == other.options[s].ids &&
                   options[s].byWrapper == other.options[s].byWrapper)
      ensures NoDuplicatesButNull(options[..])
      ensures Valid(options[..]) <==>
              forall s :: 0 <= s < options.Length && other.options[s] != null ==> OneSlot(other.options[s])
    {
      options := new Option?[other.options.Length](_ => null);
      new;
      for i := 0 to options.Length
        invariant fresh(options)
        invariant forall s :: i <= s < options.Length ==> options[s] == null
        invariant forall s :: 0 <= s < i ==> (options[s] == null <==> other.options[s] == null)
        invariant forall s :: 0 <= s < i && options[s] != null ==>
                    fresh(options[s]) && options[s].ids == other.options[s].ids &&
                    options[s].byWrapper == other.options[s].byWrapper
        invariant forall s, k :: 0 <= s < k < i && options[s] != null ==> options[s] != options[k]
      {
        var option := other.options[i];
        if option != null {
          options[i] := new Option(option.ids, option.byWrapper);
        }
      }
      ClonesValid(other.options[..], options[..]);
    }

    /** Exchanges the contents slot by slot. */
    method Swap(other: OptionSet)
      requires options.Length == other.options.Length
      modifies options, other.options
      ensures options[..] == old(other.options[..]) && other.options[..] == old(options[..])
    {
      for i := 0 to options.Length
        invariant forall k :: 0 <= k < i ==> options[k] == old(other.options[k]) && other.options[k] == old(options[k])
        invariant forall k :: i <= k < options.Length ==>
                    options[k] == old(options[k]) && other.options[k] == old(other.options[k])
      {
        options[i], other.options[i] := other.options[i], options[i];
      }
    }

    /** Drops every option and tells no handle. A handle that made the calls `calls` stays in
        step exactly when there was nothing to drop, and one without any call gets in step. */
    method Clear(ghost calls: seq<Call>)
      modifies options
      ensures forall s :: 0 <= s < options.Length ==> options[s] == null
      ensures Valid(options[..]) && InStep(options[..], [])
      ensures old(InStep(options[..], calls)) ==>
                (InStep(options[..], calls) <==> forall s :: 0 <= s < options.Length ==> old(options[s]) == null)
    {
      for i := 0 to options.Length
        invariant forall s :: 0 <= s < i ==> options[s] == null
      {
        options[i] := null;
      }
    }

    /** Takes over the contents of another table, which is left empty. */
    method TakeFrom(other: OptionSet)
      requires options.Length == other.options.Length && options != other.options
      modifies options, other.options
      ensures options[..] == old(other.options[..])
      ensures forall s :: 0 <= s < other.options.Length ==> other.options[s] == null
    {
      for i := 0 to options.Length
        invariant forall k :: 0 <= k < i ==> options[k] == old(other.options[k]) && other.options[k] == null
        invariant forall k :: i <= k < options.Length ==> other.options[k] == old(other.options[k])
      {
        options[i] := other.options[i];
        other.options[i] := null;
      }
    }

    /** Empties the slots an option lists, as long as each of them still holds it. */
    method Erase(option: Option) returns (ok: bool)
      requires Fits(option, options.Length)
      modifies options
      ensures ok <==> NoDuplicates(Slots(option)) &&
                      forall k :: k in Slots(option) ==> old(options[..])[k] == option
      ensures ok ==> options[..] == Without(old(options[..]), Slots(option))
    {
      ghost var before, slots := options[..], Slots(option);
      for i := 0 to |option.ids|
        invariant forall k :: 0 <= k < options.Length ==> options[k] == if k in slots[..i] then null else before[k]
        invariant forall j :: 0 <= j < i ==> before[slots[j]] == option
        invariant forall a, b :: 0 <= a < b < i ==> slots[a] != slots[b]
      {
        var other := OptionSlot(option.ids[i]);
        assert other == slots[i];
        if options[other] == null || options[other] != option {
          assert other in slots[..i] || before[other] != option;
          return false;
        }
        assert other !in slots[..i];
        options[other] := null;
        assert slots[..i + 1] == slots[..i] + [other];
      }
      assert slots[..|option.ids|] == slots;
      ok := true;
    }

    /** Takes out the option at `id`; `ok` is false where the source would trip an assertion. */
    method Unset(handle: Handle, id: nat) returns (ok: bool)
      requires AllFit(options[..]) && SlotOf(id) < options.Length
      modifies options, handle`calls
      ensures ok <==> old(Removable(options[..], SlotOf(id)))
      ensures ok && old(options[SlotOf(id)]) == null ==>
                options[..] == old(options[..]) && handle.calls == old(handle.calls)
      ensures ok && old(options[SlotOf(id)]) != null ==>
                var option: Option := old(options[SlotOf(id)]);
                options[..] == Without(old(options[..]), Slots(option)) &&
                handle.calls == old(handle.calls) + [Call.Unset(option)]
      ensures ok ==> options[SlotOf(id)] == null
    {
      var slot := OptionSlot(id);
      var option := options[slot];
      if option != null {
        ok := Erase(option);
        if !ok {
          return;
        }
        handle.Unset(option);
      }
      ok := options[slot] == null;
    }

    /** Takes out every option that shares a slot with `o`. */
    method UnsetAll(handle: Handle, o: Option) returns (ok: bool)
      requires Valid(options[..]) && Fits(o, options.Length)
      modifies options, handle`calls
      ensures ok <==> forall i :: 0 <= i < |o.ids| ==> old(Removable(options[..], Slots(o)[i]))
      ensures ok ==> Valid(options[..])
      ensures ok ==> forall k :: 0 <= k < options.Length ==>
                options[k] == if old(SharesSlot(options[..], o, options[k])) then null else old(options[k])
      ensures ok && old(InStep(options[..], handle.calls)) ==> InStep(options[..], handle.calls)
      ensures ok && old(Backed(options[..], handle.calls)) ==> Backed(options[..], handle.calls)
    {
      ghost var before := options[..];
      for i := 0 to |o.ids|
        invariant Valid(options[..])
        invariant forall j :: 0 <= j < i ==> Removable(before, Slots(o)[j])
        invariant forall k :: 0 <= k < options.Length ==>
                    options[k] == if SharesFirst(before, o, i, before[k]) then null else before[k]
        invariant old(InStep(options[..], handle.calls)) ==> InStep(options[..], handle.calls)
        invariant old(Backed(options[..], handle.calls)) ==> Backed(options[..], handle.calls)
      {
        ghost var now, calls := options[..], handle.calls;
        RemovableNow(before, now, o, i);
        ok := Unset(handle, o.ids[i]);
        if !ok {
          return;
        }
        AfterUnset(before, now, options[..], o, i);
        if now[Slots(o)[i]] != null {
          StaysInStep(now, calls, now[Slots(o)[i]]);
        }
      }
      ok := true;
    }

    /** Sets an option and keeps it: `setopt` for options curl points into. An option that curl
        refuses stays in the table all the same, so the handle falls behind it. */
    method StoreAndSet(o: Option, handle: Handle, taken: set<nat>) returns (ok: bool, accepted: bool)
      requires Valid(options[..]) && Fits(o, options.Length) && o.byWrapper
      modifies options, handle`calls
      ensures ok <==> forall i :: 0 <= i < |o.ids| ==> old(Removable(options[..], Slots(o)[i]))
      ensures ok ==> (accepted <==> forall k :: k in Slots(o) ==> k in taken)
      ensures ok ==> Valid(options[..]) && forall k :: 0 <= k < options.Length ==>
                options[k] == if k in Slots(o) then o
                              else if old(SharesSlot(options[..], o, options[k])) then null else old(options[k])
      ensures ok && old(Backed(options[..], handle.calls)) ==> Backed(options[..], handle.calls)
      ensures ok && old(InStep(options[..], handle.calls)) ==> (InStep(options[..], handle.calls) <==> accepted)
    {
      ghost var before := options[..];
      accepted := false;
      ok := UnsetAll(handle, o);
      if !ok {
        return;
      }
      ghost var now, calls := options[..], handle.calls;
      for i := 0 to |o.ids|
        invariant handle.calls == calls
        invariant forall k :: 0 <= k < options.Length ==>
                    options[k] == if k in Slots(o)[..i] then o else now[k]
      {
        var slot := OptionSlot(o.ids[i]);
        assert slot == Slots(o)[i];
        options[slot] := o;
        assert Slots(o)[..i + 1] == Slots(o)[..i] + [Slots(o)[i]];
      }
      assert Slots(o)[..|o.ids|] == Slots(o);
      StoredValid(before, now, options[..], o);
      accepted := handle.TrySet(o, taken);
      Tried(now, options[..], calls, o, taken, accepted);
      assert forall k :: k in Slots(o) ==> now[k] == null by {
        EmptiedSlots(before, now, o);
      }
    }

    /** Sets an option curl copies: what it replaces is dropped, and nothing is kept. */
    method SetByCurl(o: Option, handle: Handle, taken: set<nat>) returns (ok: bool, accepted: bool)
      requires Valid(options[..]) && Fits(o, options.Length) && !o.byWrapper
      modifies options, handle`calls
      ensures ok <==> forall i :: 0 <= i < |o.ids| ==> old(Removable(options[..], Slots(o)[i]))
      ensures ok ==> (accepted <==> forall k :: k in Slots(o) ==> k in taken)
      ensures ok ==> Valid(options[..]) && forall k :: 0 <= k < options.Length ==>
                options[k] == if old(SharesSlot(options[..], o, options[k])) then null else old(options[k])
      ensures ok && old(Backed(options[..], handle.calls)) ==> Backed(options[..], handle.calls)
      ensures ok && old(InStep(options[..], handle.calls)) ==> InStep(options[..], handle.calls)
    {
      ghost var before := options[..];
      accepted := false;
      ok := UnsetAll(handle, o);
      if !ok {
        return;
      }
      ghost var now, calls := options[..], handle.calls;
      accepted := handle.TrySet(o, taken);
      EmptiedSlots(before, now, o);
      Tried(now, now, calls, o, taken, accepted);
    }

    /** Sets every kept option on a handle, each one once. If the table is sound, a fresh handle
        then refers to exactly the options the table keeps alive. */
    method Replay(handle: Handle) returns (ghost applied: seq<Option>)
      requires forall s :: 0 <= s < options.Length && options[s] != null ==> options[s].byWrapper
      modifies handle`calls
      ensures handle.calls == old(handle.calls) + Sets(applied)
      ensures NoDuplicates(applied) && forall o: Option :: o in applied <==> Live(options[..], o)
      ensures Valid(options[..]) ==>
                forall s :: 0 <= s < options.Length && options[s] != null ==> Referred(handle.calls, s) == options[s]
      ensures Valid(options[..]) && old(handle.calls) == [] ==> InStep(options[..], handle.calls)
    {
      var seen: set<Option> := {};
      applied := [];
      for i := 0 to options.Length
        invariant handle.calls == old(handle.calls) + Sets(applied)
        invariant NoDuplicates(applied)
        invariant forall o :: o in seen <==> o in applied
        invariant forall o :: o in applied ==> o in options[..]
        invariant forall s :: 0 <= s < i && options[s] != null ==> options[s] in applied
      {
        var option := options[i];
        if option != null && option !in seen {
          handle.Set(option);
          seen := seen + {option};
          applied := applied + [option];
        }
      }
      if Valid(options[..]) {
        Replayed(options[..], old(handle.calls), applied);
      }
    }
  }

  function Sets(options: seq<Option>): (calls: seq<Call>)
    ensures |calls| == |options|
  {
    seq(|options|, i requires 0 <= i < |options| => Set(options[i]))
  }

  ghost predicate SharesFirst(t: Table, o: Option, n: nat, kept: Option?)
    requires n <= |o.ids|
  {
    kept != null && exists i :: 0 <= i < n && Slots(o)[i] < |t| && t[Slots(o)[i]] == kept
  }

  ghost predicate SharesSlot(t: Table, o: Option, kept: Option?) {
    SharesFirst(t, o, |o.ids|, kept)
  }

  ghost predicate NoDuplicatesButNull(t: Table) {
    forall s, k :: 0 <= s < k < |t| && t[s] != null ==> t[s] != t[k]
  }

  predicate OneSlot(o: Option) {
    forall i, j :: 0 <= i < j < |o.ids| ==> Slots(o)[i] == Slots(o)[j]
  }

  lemma ClonesValid(t: Table, copy: Table)
    requires Valid(t) && Clones(t, copy)
    ensures Valid(copy) <==> forall s :: 0 <= s < |t| && t[s] != null ==> OneSlot(t[s])
  {
    forall s | 0 <= s < |t| && t[s] != null
      ensures Slots(copy[s]) == Slots(t[s])
    {
    }
    if Valid(copy) {
      forall s | 0 <= s < |t| && t[s] != null
        ensures OneSlot(t[s])
      {
        forall i, j | 0 <= i < j < |t[s].ids|
          ensures Slots(t[s])[i] == Slots(t[s])[j]
        {
          assert Slots(copy[s])[i] in Slots(copy[s]) && Slots(copy[s])[j] in Slots(copy[s]);
        }
      }
    }
  }

  lemma RemovableNow(before: Table, now: Table, o: Option, i: nat)
    requires Valid(before) && Valid(now) && |now| == |before| && Fits(o, |before|) && i < |o.ids|
    requires forall j :: 0 <= j < i ==> Removable(before, Slots(o)[j])
    requires forall k :: 0 <= k < |now| ==> now[k] == if SharesFirst(before, o, i, before[k]) then null else before[k]
    ensures Removable(now, Slots(o)[i]) <==> Removable(before, Slots(o)[i])
  {
  }

  lemma AfterUnset(before: Table, now: Table, after: Table, o: Option, i: nat)
    requires Valid(before) && Valid(now) && |after| == |now| == |before| && Fits(o, |before|) && i < |o.ids|
    requires forall k :: 0 <= k < |now| ==> now[k] == if SharesFirst(before, o, i, before[k]) then null else before[k]
    requires var kept := now[Slots(o)[i]];
             after == if kept == null then now else Without(now, Slots(kept))
    ensures Valid(after)
    ensures forall k :: 0 <= k < |now| ==>
              after[k] == if SharesFirst(before, o, i + 1, before[k]) then null else before[k]
  {
  }

  lemma StaysInStep(t: Table, calls: seq<Call>, o: Option)
    ensures InStep(t, calls) ==> InStep(Without(t, Slots(o)), calls + [Unset(o)])
    ensures Backed(t, calls) ==> Backed(Without(t, Slots(o)), calls + [Unset(o)])
  {
    forall s | 0 <= s < |t|
      ensures Referred(calls + [Unset(o)], s) == if s in Slots(o) then null else Referred(calls, s)
    {
      UnsetInForce(calls, o, s);
    }
  }

  lemma StoredValid(before: Table, now: Table, after: Table, o: Option)
    requires Valid(before) && Valid(now) && |after| == |now| == |before| && Fits(o, |before|)
    requires forall k :: 0 <= k < |now| ==> now[k] == if SharesSlot(before, o, before[k]) then null else before[k]
    requires forall k :: 0 <= k < |now| ==> after[k] == if k in Slots(o) then o else now[k]
    ensures Valid(after)
  {
  }

  lemma EmptiedSlots(before: Table, now: Table, o: Option)
    requires Fits(o, |before|) && |now| == |before|
    requires forall k :: 0 <= k < |now| ==> now[k] == if SharesSlot(before, o, before[k]) then null else before[k]
    ensures forall k :: k in Slots(o) ==> now[k] == null
  {
    forall k | k in Slots(o)
      ensures now[k] == null
    {
      var i :| 0 <= i < |o.ids| && Slots(o)[i] == k;
      assert before[k] != null ==> SharesSlot(before, o, before[k]);
    }
  }

  /** What a handle refers to once curl has taken an option or some of it. */
  lemma Tried(now: Table, after: Table, calls: seq<Call>, o: Option, taken: set<nat>, accepted: bool)
    requires Fits(o, |now|) && |after| == |now|
    requires accepted <==> forall k :: k in Slots(o) ==> k in taken
    ensures var calls' := calls + [if accepted then Set(o) else Refuse(o, taken)];
            forall s :: 0 <= s < |now| ==>
              Referred(calls', s) ==
                if s in Slots(o) && s in taken then if o.byWrapper then o else null else Referred(calls, s)
  {
    forall s | 0 <= s < |now|
      ensures Referred(calls + [if accepted then Set(o) else Refuse(o, taken)], s) ==
                if s in Slots(o) && s in taken then if o.byWrapper then o else null else Referred(calls, s)
    {
      if accepted {
        SetInForce(calls, o, s);
      } else {
        RefuseInForce(calls, o, taken, s);
      }
    }
  }

  /** The last of some options to be set at a slot, if any. */
  function LastFor(applied: seq<Option>, slot: nat): (last: Option?)
    ensures last != null ==> last in applied && slot in Slots(last)
    ensures last == null ==> forall o :: o in applied ==> slot !in Slots(o)
  {
    if applied == [] then null
    else if slot in Slots(applied[|applied| - 1]) then applied[|applied| - 1]
    else LastFor(applied[..|applied| - 1], slot)
  }

  lemma {:induction false} SetsInForce(calls: seq<Call>, applied: seq<Option>, slot: nat)
    requires forall o :: o in applied ==> o.byWrapper
    ensures Referred(calls + Sets(applied), slot) ==
              if LastFor(applied, slot) != null then LastFor(applied, slot) else Referred(calls, slot)
  {
    if applied == [] {
      assert calls + Sets(applied) == calls;
    } else {
      var init, o := applied[..|applied| - 1], applied[|applied| - 1];
      SetsInForce(calls, init, slot);
      assert calls + Sets(applied) == calls + Sets(init) + [Set(o)];
      SetInForce(calls + Sets(init), o, slot);
    }
  }

  lemma Replayed(t: Table, calls: seq<Call>, applied: seq<Option>)
    requires Valid(t) && forall o: Option :: o in applied <==> Live(t, o)
    requires forall s :: 0 <= s < |t| && t[s] != null ==> t[s].byWrapper
    ensures forall s :: 0 <= s < |t| && t[s] != null ==> Referred(calls + Sets(applied), s) == t[s]
    ensures calls == [] ==> InStep(t, calls + Sets(applied))
  {
    forall s | 0 <= s < |t|
      ensures t[s] != null ==> Referred(calls + Sets(applied), s) == t[s]
      ensures calls == [] ==> Referred(calls + Sets(applied), s) == t[s]
    {
      SetsInForce(calls, applied, s);
      OwnerIsLast(t, applied, s);
    }
  }

  /** In a sound table only the option at a slot can be set there. */
  lemma OwnerIsLast(t: Table, applied: seq<Option>, slot: nat)
    requires Valid(t) && slot < |t| && forall o: Option :: o in applied <==> Live(t, o)
    ensures LastFor(applied, slot) == t[slot]
  {
    var last := LastFor(applied, slot);
    if last != null {
      var s :| 0 <= s < |t| && t[s] == last;
    } else if t[slot] != null {
      assert Live(t, t[slot]);
    }
  }

  // ----- the handle and its table ---------------------------------------------------------

  /** Whatever the handle refers to is kept alive by the table. */
  ghost predicate KeptAlive(t: Table, calls: seq<Call>) {
    forall s :: 0 <= s < |t| && Referred(calls, s) != null ==> Live(t, Referred(calls, s))
  }

  /** `t` and `copy` hold options with the same identifiers, none of them shared by two slots
      of the copy. */
  ghost predicate Clones(t: Table, copy: Table) {
    |copy| == |t| && NoDuplicatesButNull(copy) &&
    forall s :: 0 <= s < |t| ==>
      (copy[s] == null <==> t[s] == null) &&
      (copy[s] != null ==> copy[s].ids == t[s].ids && copy[s].byWrapper == t[s].byWrapper)
  }

  /** Replaying the clones on a duplicated handle puts a clone wherever the handle referred to an
      original. */
  lemma ClonesReplace(t: Table, copy: Table, calls: seq<Call>, applied: seq<Option>, s: nat)
    requires Valid(t) && Backed(t, calls) && Clones(t, copy) && s < |t|
    requires forall o: Option :: o in applied <==> Live(copy, o)
    requires forall o :: o in applied ==> o.byWrapper
    ensures Referred(calls + Sets(applied), s) == LastFor(applied, s)
    ensures copy[s] == null <==> LastFor(applied, s) == null
  {
    hide Referred, Sets;
    SetsInForce(calls, applied, s);
    if copy[s] != null {
      assert Live(copy, copy[s]) && Slots(copy[s]) == Slots(t[s]);
    } else if LastFor(applied, s) != null {
      CloneAt(t, copy, applied, s);
    }
  }

  lemma ClonesAreKept(t: Table, copy: Table, calls: seq<Call>, applied: seq<Option>)
    requires Valid(t) && Backed(t, calls) && Clones(t, copy)
    requires forall o: Option :: o in applied <==> Live(copy, o)
    requires forall o :: o in applied ==> o.byWrapper
    ensures KeptAlive(copy, calls + Sets(applied))
  {
    assert |copy| == |t|;
    hide Referred, Backed, Valid, Clones, Sets;
    forall s | 0 <= s < |copy| && Referred(calls + Sets(applied), s) != null
      ensures Live(copy, Referred(calls + Sets(applied), s))
    {
      ClonesReplace(t, copy, calls, applied, s);
    }
  }

  /** The clones are in step exactly when no option takes two slots. */
  lemma ClonesInStep(t: Table, copy: Table, calls: seq<Call>, applied: seq<Option>)
    requires Valid(t) && Backed(t, calls) && Clones(t, copy)
    requires forall o: Option :: o in applied <==> Live(copy, o)
    requires forall o :: o in applied ==> o.byWrapper
    ensures InStep(copy, calls + Sets(applied)) <==> forall s :: 0 <= s < |t| && t[s] != null ==> OneSlot(t[s])
  {
    forall s | 0 <= s < |t|
      ensures Referred(calls + Sets(applied), s) == LastFor(applied, s)
      ensures copy[s] == null <==> LastFor(applied, s) == null
    {
      ClonesReplace(t, copy, calls, applied, s);
    }
    hide Referred, Sets;
    if forall s :: 0 <= s < |t| && t[s] != null ==> OneSlot(t[s]) {
      ClonesValid(t, copy);
      forall s | 0 <= s < |t|
        ensures LastFor(applied, s) == copy[s]
      {
        OwnerIsLast(copy, applied, s);
      }
    } else {
      var s :| 0 <= s < |t| && t[s] != null && !OneSlot(t[s]);
      TwoSlotsShare(t, copy, applied, t[s]);
    }
  }

  /** The clones of an option with two slots cannot both be in force. */
  lemma TwoSlotsShare(t: Table, copy: Table, applied: seq<Option>, o: Option)
    requires Valid(t) && Clones(t, copy) && o in t && !OneSlot(o)
    requires forall o: Option :: o in applied ==> Live(copy, o)
    ensures exists s :: 0 <= s < |t| && LastFor(applied, s) != copy[s]
  {
    var i, j :| 0 <= i < j < |o.ids| && Slots(o)[i] != Slots(o)[j];
    var a, b := Slots(o)[i], Slots(o)[j];
    assert a in Slots(o) && b in Slots(o) && t[a] == o && t[b] == o;
    SameCover(t, copy, applied, a, b);
    assert copy[a] != copy[b];
    assert LastFor(applied, a) != copy[a] || LastFor(applied, b) != copy[b];
  }

  /** A clone set at a slot is the clone of the option that occupies the slot in the original. */
  lemma CloneAt(t: Table, copy: Table, applied: seq<Option>, slot: nat)
    requires Valid(t) && Clones(t, copy) && slot < |t|
    requires forall o: Option :: o in applied ==> Live(copy, o)
    ensures forall o :: o in applied && slot in Slots(o) ==> t[slot] != null && Slots(o) == Slots(t[slot])
  {
    forall o | o in applied && slot in Slots(o)
      ensures t[slot] != null && Slots(o) == Slots(t[slot])
    {
      var k :| 0 <= k < |copy| && copy[k] == o;
      assert Slots(o) == Slots(t[k]);
    }
  }

  /** Clones of one option cover the same slots, so the last one set is the same at each. */
  lemma {:induction false} SameCover(t: Table, copy: Table, applied: seq<Option>, a: nat, b: nat)
    requires Valid(t) && Clones(t, copy) && a < |t| && b < |t| && t[a] != null && t[a] == t[b]
    requires forall o: Option :: o in applied ==> Live(copy, o)
    ensures LastFor(applied, a) == LastFor(applied, b)
  {
    if applied != [] {
      CloneAt(t, copy, applied, a);
      CloneAt(t, copy, applied, b);
      SameCover(t, copy, applied[..|applied| - 1], a, b);
      assert applied[|applied| - 1] in applied;
    }
  }

  lemma ClonesFit(t: Table, copy: Table)
    requires Valid(t) && Clones(t, copy)
    ensures AllFit(copy)
  {
    forall s | 0 <= s < |copy| && copy[s] != null
      ensures Fits(copy[s], |copy|)
    {
      assert Slots(copy[s]) == Slots(t[s]);
    }
  }

  /** In a copied table every assertion holds exactly when each option of the original lists a
      single identifier. */
  lemma CopyAssertionsHold(t: Table, copy: Table)
    requires Valid(t) && Clones(t, copy) && AllFit(copy)
    ensures (forall s :: 0 <= s < |copy| ==> Removable(copy, s)) <==>
            forall s :: 0 <= s < |t| && t[s] != null ==> |t[s].ids| == 1
  {
    forall s | 0 <= s < |copy| && copy[s] != null
      ensures Removable(copy, s) <==> |t[s].ids| == 1
    {
      var slots := Slots(copy[s]);
      assert slots == Slots(t[s]);
      if |t[s].ids| > 1 {
        assert slots[0] in slots && slots[1] in slots;
      }
    }
  }

  /** bunsan::curl::easy: a handle together with the options it refers to. */
  class Easy {
    var handle: Handle?
    const kept: OptionSet

    /** Whatever the open handle refers to is kept alive by the table. */
    ghost predicate Safe()
      reads this, handle, kept, kept.options
    {
      var t := kept.options[..];
      Valid(t) && (forall s :: 0 <= s < |t| && t[s] != null ==> t[s].byWrapper) &&
      if handle == null then forall s :: 0 <= s < |t| ==> t[s] == null else handle.open && Backed(t, handle.calls)
    }

    /** And the handle refers to all that the table keeps. */
    ghost predicate Sound()
      reads this, handle, kept, kept.options
    {
      Safe() && (handle != null ==> InStep(kept.options[..], handle.calls))
    }

    constructor (size: nat)
      ensures Sound() && fresh(handle) && fresh(kept) && fresh(kept.options) && handle != null
      ensures kept.options.Length == size && forall s :: 0 <= s < size ==> kept.options[s] == null
    {
      handle := new Handle();
      kept := new OptionSet(size);
    }

    /** The copy constructor. All that the new handle refers to is kept alive by the new table;
        the two are in step exactly when no option of the original takes two slots. Every slot
        of the copy can be emptied exactly when each option lists a single identifier. */
    constructor Copy(other: Easy)
      requires other.Safe()
      ensures fresh(kept) && fresh(kept.options) && (handle == null <==> other.handle == null)
      ensures handle != null ==> fresh(handle) && handle.open && KeptAlive(kept.options[..], handle.calls)
      ensures Clones(other.kept.options[..], kept.options[..])
      ensures Sound() <==> forall s :: 0 <= s < other.kept.options.Length && other.kept.options[s] != null ==>
                             OneSlot(other.kept.options[s])
      ensures AllFit(kept.options[..])
      ensures (forall s :: 0 <= s < kept.options.Length ==> Removable(kept.options[..], s)) <==>
              forall s :: 0 <= s < other.kept.options.Length && other.kept.options[s] != null ==>
                |other.kept.options[s].ids| == 1
    {
      hide Referred, Sets, Slots, OneSlot, Removable, Fits;
      var h: Handle? := null;
      if other.handle != null {
        h := new Handle.Duplicate(other.handle);
      }
      var table := new OptionSet.Copy(other.kept);
      ghost var t, copy := other.kept.options[..], table.options[..];
      if h != null {
        ghost var calls := h.calls;
        ghost var applied := table.Replay(h);
        ClonesAreKept(t, copy, calls, applied);
        ClonesInStep(t, copy, calls, applied);
      }
      ClonesFit(t, copy);
      CopyAssertionsHold(t, copy);
      handle := h;
      kept := table;
    }

    /** `set`, for both kinds of options. If curl refuses an option of the kind that is kept, the
        table is ahead of the handle; nothing the handle refers to is lost. */
    method Set(o: Option, taken: set<nat>) returns (ok: bool, accepted: bool)
      requires Safe() && handle != null && Fits(o, kept.options.Length)
      modifies handle, kept.options
      ensures ok <==> forall i :: 0 <= i < |o.ids| ==> old(Removable(kept.options[..], Slots(o)[i]))
      ensures ok ==> (accepted <==> forall k :: k in Slots(o) ==> k in taken)
      ensures ok ==> Safe()
      ensures ok && old(Sound()) ==> (Sound() <==> accepted || !o.byWrapper)
      ensures ok && o.byWrapper ==> forall k :: k in Slots(o) ==> kept.options[k] == o
    {
      if o.byWrapper {
        ok, accepted := kept.StoreAndSet(o, handle, taken);
      } else {
        ok, accepted := kept.SetByCurl(o, handle, taken);
      }
    }

    method Reset()
      requires Safe() && handle != null
      modifies handle, kept.options
      ensures Sound() && handle.calls == []
      ensures forall s :: 0 <= s < kept.options.Length ==> kept.options[s] == null
    {
      handle.Reset();
      kept.Clear(handle.calls);
    }

    /** Assigning `nullptr`, which is also what the destructor does. */
    method Drop()
      requires Safe()
      modifies this, handle, kept.options
      ensures Sound() && handle == null && (old(handle) != null ==> !old(handle).open)
    {
      if handle != null {
        handle.Cleanup();
      }
      handle := null;
      kept.Clear([]);
    }

    method Swap(other: Easy)
      requires Safe() && other.Safe() && kept.options.Length == other.kept.options.Length
      requires this == other || kept.options != other.kept.options
      modifies this, other, kept.options, other.kept.options
      ensures Safe() && other.Safe()
      ensures (Sound() <==> old(other.Sound())) && (other.Sound() <==> old(Sound()))
      ensures handle == old(other.handle) && other.handle == old(handle)
      ensures kept.options[..] == old(other.kept.options[..]) && other.kept.options[..] == old(kept.options[..])
    {
      handle, other.handle := other.handle, handle;
      kept.Swap(other.kept);
    }

    /** Move assignment. It does not clean up the handle it replaces: a handle stays open with no
        owner exactly when there was one. */
    method MoveFrom(other: Easy)
      requires Safe() && other.Safe() && kept.options.Length == other.kept.options.Length
      requires this != other && kept.options != other.kept.options
      requires handle == null || handle != other.handle
      modifies this, other, kept.options, other.kept.options
      ensures Safe() && other.Sound() && (Sound() <==> old(other.Sound()))
      ensures handle == old(other.handle) && other.handle == null
      ensures kept.options[..] == old(other.kept.options[..])
      ensures old(handle) != null ==> old(handle).open && old(handle) != handle
    {
      handle := other.handle;
      other.handle := null;
      kept.TakeFrom(other.kept);
    }
  }

  /** A callback with its data, set and copied: the next option set at one of its slots, which
      first takes out what is there, trips an assertion. */
  method TwoSlotCopyTrips() returns (stored: bool, accepted: bool, removed: bool)
    ensures stored && accepted && !removed
  {
    var callback := new Option([0, 1], true);
    var original := new Easy(2);
    assert Slots(callback) == [0, 1];
    assert Fits(callback, original.kept.options.Length);
    assert forall s :: 0 <= s < 2 ==> Removable(original.kept.options[..], s);
    stored, accepted := original.Set(callback, {0, 1});
    assert stored;
    var copy := new Easy.Copy(original);
    ghost var t, table := original.kept.options[..], copy.kept.options[..];
    assert t[0] == callback && t[1] == callback by {
      assert 0 in Slots(callback) && 1 in Slots(callback);
    }
    assert table[0] != table[1];
    assert Slots(table[0])[1] == 1;
    removed := copy.kept.Unset(copy.handle, 0);
  }
}
