/** Bookkeeping of the rendering contexts the application owns. Each
    context is tagged as possibly current or not current; a tracker keeps
    the contexts in a table sorted by the id it hands out from a counter,
    together with the id of the current one. Making a context current or
    not current is a call into the windowing library; here its success or
    failure is an input. A context itself is an opaque handle. */
module ContextTracking {
  import opened Wrappers

  /** A context with no window, or one bound to a window. */
  datatype Surface = Headless(handle: nat) | Windowed(handle: nat)

  /** `ContextWrapper::map`: run the headless or the windowed conversion,
      whose success is `ok`, and keep the variant either way (on failure
      the context is handed back). */
  function MapSurface(c: Surface, ok: bool): (r: Result<Surface, Surface>)
    ensures r.Ok? <==> ok
    ensures (if r.Ok? then r.value else r.error) == c
  {
    if ok then Ok(c) else Err(c)
  }

  datatype Tagged = PossiblyCurrent(ctx: Surface) | NotCurrent(ctx: Surface)

  /** Make a possibly-current context not current; a context that already
      is not current is returned as it is. On failure the context is
      handed back unchanged. */
  function MapPossibly(t: Tagged, ok: bool): (r: Result<Tagged, Tagged>)
    ensures t.NotCurrent? ==> r == Ok(t)
    ensures r.Ok? <==> t.NotCurrent? || ok
    ensures r.Ok? ==> r.value == NotCurrent(t.ctx)
    ensures r.Err? ==> r.error == t
  {
    match t
    case NotCurrent(_) => Ok(t)
    case PossiblyCurrent(c) =>
      match MapSurface(c, ok)
      case Ok(c') => Ok(NotCurrent(c'))
      case Err(c') => Err(PossiblyCurrent(c'))
  }

  /** Make a not-current context current; one that possibly is current
      already is returned as it is. On failure the context is handed back
      unchanged. */
  function MapNot(t: Tagged, ok: bool): (r: Result<Tagged, Tagged>)
    ensures t.PossiblyCurrent? ==> r == Ok(t)
    ensures r.Ok? <==> t.PossiblyCurrent? || ok
    ensures r.Ok? ==> r.value == PossiblyCurrent(t.ctx)
    ensures r.Err? ==> r.error == t
  {
    match t
    case PossiblyCurrent(_) => Ok(t)
    case NotCurrent(c) =>
      match MapSurface(c, ok)
      case Ok(c') => Ok(PossiblyCurrent(c'))
      case Err(c') => Err(NotCurrent(c'))
  }

  /** Making a context current and then not current again, both
      succeeding, gives back the context as it was. */
  lemma MapRoundTrip(c: Surface)
    ensures MapNot(NotCurrent(c), true).Ok?
    ensures MapPossibly(MapNot(NotCurrent(c), true).value, true) == Ok(NotCurrent(c))
    ensures MapPossibly(PossiblyCurrent(c), true).Ok?
    ensures MapNot(MapPossibly(PossiblyCurrent(c), true).value, true) == Ok(PossiblyCurrent(c))
  {
  }

  // ---------------------------------------------------------------------
  // The table

  datatype Entry = Entry(id: nat, ctx: Tagged)

  /** The tracker's state as a value. */
  datatype Tracker = Tracker(current: Option<nat>, others: seq<Entry>, nextId: nat)

  predicate SortedIds(others: seq<Entry>)
  {
    forall i, j :: 0 <= i < j < |others| ==> others[i].id < others[j].id
  }

  /** The position of `id` in the table, by a scan from the front. */
  function Find(others: seq<Entry>, id: nat): (r: Option<nat>)
    ensures r.Some? ==> r.value < |others| && others[r.value].id == id
    ensures r.None? ==> forall i :: 0 <= i < |others| ==> others[i].id != id
  {
    if others == [] then None
    else if others[0].id == id then Some(0)
    else
      var rest := Find(others[1..], id);
      if rest.Some? then Some(rest.value + 1) else None
  }

  /** In a sorted table an id occurs at one position only. */
  lemma {:induction false} FindSorted(others: seq<Entry>, id: nat, i: nat)
    requires SortedIds(others) && i < |others| && others[i].id == id
    ensures Find(others, id) == Some(i)
  {
    if i > 0 {
      assert others[0].id < others[i].id;
      FindSorted(others[1..], id, i - 1);
    }
  }

  /** `binary_search_by` on the id: `Ok` with the position of `id`, or
      `Err` with the position where it would be inserted. */
  method BinarySearch(others: seq<Entry>, id: nat) returns (r: Result<nat, nat>)
    requires SortedIds(others)
    ensures r.Ok? <==> Find(others, id).Some?
    ensures r.Ok? ==> r.value == Find(others, id).value
    ensures r.Err? ==> r.error <= |others|
                       && (forall i :: 0 <= i < r.error ==> others[i].id < id)
                       && (forall i :: r.error <= i < |others| ==> others[i].id > id)
  {
    var lo, hi := 0, |others|;
    while lo < hi
      invariant 0 <= lo <= hi <= |others|
      invariant forall i :: 0 <= i < lo ==> others[i].id < id
      invariant forall i :: hi <= i < |others| ==> others[i].id > id
    {
      var mid := lo + (hi - lo) / 2;
      if others[mid].id < id {
        lo := mid + 1;
      } else if others[mid].id > id {
        hi := mid;
      } else {
        FindSorted(others, id, mid);
        return Ok(mid);
      }
    }
    return Err(lo);
  }

  /** The tracker's invariant: ids sorted and below the counter, `current`
      names a tracked context, and exactly that context is possibly
      current. */
  predicate Valid(t: Tracker)
  {
    && SortedIds(t.others)
    && (forall i :: 0 <= i < |t.others| ==> t.others[i].id < t.nextId)
    && (t.current.Some? ==> Find(t.others, t.current.value).Some?)
    && (forall i :: 0 <= i < |t.others| ==> (t.others[i].ctx.PossiblyCurrent? <==> t.current == Some(t.others[i].id)))
  }

  /** The conversion `modify` applies to a context. */
  datatype Change = ToNotCurrent | ToCurrent

  /** `modify`: convert the context with that id and put whatever comes
      back into its slot; the flag says whether the conversion succeeded. */
  function ModifySpec(t: Tracker, id: nat, change: Change, ok: bool): (r: (Tracker, bool))
    requires Find(t.others, id).Some?
    ensures r.0.current == t.current && r.0.nextId == t.nextId && |r.0.others| == |t.others|
    ensures forall j :: 0 <= j < |t.others| ==> r.0.others[j].id == t.others[j].id
  {
    var i := Find(t.others, id).value;
    var res := if change == ToNotCurrent then MapPossibly(t.others[i].ctx, ok) else MapNot(t.others[i].ctx, ok);
    var back := if res.Ok? then res.value else res.error;
    (t.(others := t.others[i := Entry(id, back)]), res.Ok?)
  }

  /** `modify` changes the tag of the one entry with that id and nothing
      else: every id and every context handle stays where it was, and the
      entry ends up converted exactly when the conversion succeeded. */
  lemma ModifyEffect(t: Tracker, id: nat, change: Change, ok: bool)
    requires Find(t.others, id).Some?
    ensures var r := ModifySpec(t, id, change, ok);
            && (forall j :: 0 <= j < |t.others| ==> r.0.others[j].id == t.others[j].id && r.0.others[j].ctx.ctx == t.others[j].ctx.ctx)
            && (forall j :: 0 <= j < |t.others| && t.others[j].id != id ==> r.0.others[j] == t.others[j])
    ensures var i := Find(t.others, id).value;
            var r := ModifySpec(t, id, change, ok);
            && (change == ToNotCurrent ==>
                  r.1 == (t.others[i].ctx.NotCurrent? || ok) && r.0.others[i].ctx.NotCurrent? == r.1)
            && (change == ToCurrent ==>
                  r.1 == (t.others[i].ctx.PossiblyCurrent? || ok) && r.0.others[i].ctx.PossiblyCurrent? == r.1)
  {
  }

  /** A new tracker. */
  const EmptyTracker := Tracker(None, [], 0)

  /** `insert`: the context gets the next id and goes at the end; a
      possibly-current one becomes current and the previous current one
      is demoted (that conversion cannot fail). */
  function InsertSpec(t: Tracker, ctx: Tagged): (r: (Tracker, nat))
    requires Valid(t)
    ensures r.1 == t.nextId && r.0.nextId == t.nextId + 1
    ensures |r.0.others| == |t.others| + 1 && r.0.others[|t.others|] == Entry(r.1, ctx)
    ensures r.0.current == if ctx.PossiblyCurrent? then Some(r.1) else t.current
  {
    var id := t.nextId;
    var t1 := t.(nextId := t.nextId + 1);
    var t2 :=
      if ctx.PossiblyCurrent? then
        var t' := if t.current.Some? then ModifySpec(t1, t.current.value, ToNotCurrent, true).0 else t1;
        t'.(current := Some(id))
      else t1;
    (t2.(others := t2.others + [Entry(id, ctx)]), id)
  }

  /** Inserting keeps the invariant; the new id was not in use, and ids
      already handed out keep their positions. */
  lemma {:induction false} InsertKeepsValid(t: Tracker, ctx: Tagged)
    requires Valid(t)
    ensures var (t', id) := InsertSpec(t, ctx);
            && Valid(t')
            && Find(t.others, id).None?
            && (forall j :: 0 <= j < |t.others| ==> t'.others[j].id == t.others[j].id)
            && (forall j :: 0 <= j < |t.others| ==> t'.others[j].id < id)
  {
    var (t', id) := InsertSpec(t, ctx);
    if ctx.PossiblyCurrent? && t.current.Some? {
      var oc := t.current.value;
      var t1 := t.(nextId := t.nextId + 1);
      ModifyEffect(t1, oc, ToNotCurrent, true);
      var i := Find(t.others, oc).value;
      assert t'.others[i].ctx.NotCurrent?;
    }
    forall j | 0 <= j < |t'.others|
      ensures t'.others[j].ctx.PossiblyCurrent? <==> t'.current == Some(t'.others[j].id)
    {
      if j < |t.others| && ctx.PossiblyCurrent? && t.current.Some? {
        var i := Find(t.others, t.current.value).value;
        if j != i {
          assert t.others[j].id != t.current.value;
        }
      }
    }
    if t'.current.Some? {
      FindSorted(t'.others, t'.current.value, if t'.current == Some(id) then |t.others| else Find(t.others, t'.current.value).value);
    }
  }

  /** Inserting touches no older entry except the one that was current,
      which is demoted to not current with the same context and id; without
      a possibly-current insertion every older entry stays as it was. */
  lemma {:induction false} InsertDemotesOnlyCurrent(t: Tracker, ctx: Tagged)
    requires Valid(t)
    ensures var t' := InsertSpec(t, ctx).0;
            forall j :: 0 <= j < |t.others| ==>
              t'.others[j] == (if ctx.PossiblyCurrent? && t.current == Some(t.others[j].id)
                               then Entry(t.others[j].id, NotCurrent(t.others[j].ctx.ctx))
                               else t.others[j])
  {
    var t' := InsertSpec(t, ctx).0;
    if ctx.PossiblyCurrent? && t.current.Some? {
      var oc := t.current.value;
      var t1 := t.(nextId := t.nextId + 1);
      ModifyEffect(t1, oc, ToNotCurrent, true);
      forall j | 0 <= j < |t.others| && t.others[j].id == oc
        ensures t'.others[j] == Entry(oc, NotCurrent(t.others[j].ctx.ctx))
      {
        FindSorted(t.others, oc, j);
      }
    }
  }

  /** Deleting position `i` shifts the later entries down by one and keeps
      the table sorted. */
  lemma DeleteShifts(others: seq<Entry>, i: nat)
    requires SortedIds(others) && i < |others|
    ensures var r := others[..i] + others[i + 1..];
            && |r| == |others| - 1
            && (forall j :: 0 <= j < |r| ==> r[j] == others[if j < i then j else j + 1])
            && SortedIds(r)
  {
    var r := others[..i] + others[i + 1..];
    assert forall j :: 0 <= j < |r| ==> r[j] == others[if j < i then j else j + 1];
  }

  /** `remove`: the entry leaves the table, the rest keep their order, and
      `current` is cleared when it named that entry. */
  function RemoveSpec(t: Tracker, id: nat): (r: (Tracker, Tagged))
    requires Valid(t) && Find(t.others, id).Some?
    ensures r.0.current == if t.current == Some(id) then None else t.current
    ensures r.1 == t.others[Find(t.others, id).value].ctx
    ensures var i := Find(t.others, id).value; r.0.others == t.others[..i] + t.others[i + 1..]
    ensures r.0.nextId == t.nextId
  {
    var current := if t.current == Some(id) then None else t.current;
    var i := Find(t.others, id).value;
    (Tracker(current, t.others[..i] + t.others[i + 1..], t.nextId), t.others[i].ctx)
  }

  lemma {:induction false} RemoveKeepsValid(t: Tracker, id: nat)
    requires Valid(t) && Find(t.others, id).Some?
    ensures var t' := RemoveSpec(t, id).0;
            Valid(t') && Find(t'.others, id).None?
  {
    var t' := RemoveSpec(t, id).0;
    var i := Find(t.others, id).value;
    DeleteShifts(t.others, i);
    forall j | 0 <= j < |t'.others|
      ensures t'.others[j].id != id && t'.others[j].id < t'.nextId
      ensures t'.others[j].ctx.PossiblyCurrent? <==> t'.current == Some(t'.others[j].id)
    {
      var k := if j < i then j else j + 1;
      assert t'.others[j] == t.others[k];
    }
    if t'.current.Some? {
      var k := Find(t.others, t'.current.value).value;
      assert k != i;
      FindSorted(t'.others, t'.current.value, if k < i then k else k - 1);
    }
  }

  /** What `get_current` ends with. `Panicked` is the abort when both
      making the context current and making the old one not current
      fail. */
  datatype CurrentResult = MadeCurrent(surface: Surface) | MakeCurrentFailed | Panicked

  /** The final lookup: the entry must be possibly current. */
  function FinalMatch(t: Tracker, i: nat): (r: (Tracker, CurrentResult))
    requires i < |t.others|
    ensures r.0 == t
    ensures r.1 == if t.others[i].ctx.PossiblyCurrent? then MadeCurrent(t.others[i].ctx.ctx) else Panicked
  {
    match t.others[i].ctx
    case PossiblyCurrent(c) => (t, MadeCurrent(c))
    case NotCurrent(_) => (t, Panicked)
  }

  /** `get_current`. `makeCurrentOk` is whether making the context current
      succeeds; `oldNotCurrentOk` and `idNotCurrentOk` whether making the
      previous current one, or this one, not current succeeds when that is
      tried after a failure. */
  function GetCurrentSpec(t: Tracker, id: nat, makeCurrentOk: bool, oldNotCurrentOk: bool, idNotCurrentOk: bool)
    : (r: (Tracker, CurrentResult))
    requires Valid(t) && Find(t.others, id).Some?
    ensures r.0.nextId == t.nextId && |r.0.others| == |t.others|
  {
    var i := Find(t.others, id).value;
    if t.current == Some(id) then FinalMatch(t, i)
    else
      var oldCurrent := t.current;
      var t1 := t.(current := None);
      var (t2, ok) := ModifySpec(t1, id, ToCurrent, makeCurrentOk);
      if !ok then
        var (t3, ok2) := if oldCurrent.Some? then ModifySpec(t2, oldCurrent.value, ToNotCurrent, oldNotCurrentOk) else (t2, true);
        if !ok2 then (t3, Panicked)
        else
          var (t4, ok3) := ModifySpec(t3, id, ToNotCurrent, idNotCurrentOk);
          if !ok3 then (t4, Panicked) else (t4, MakeCurrentFailed)
      else
        var t3 := t2.(current := Some(id));
        var t4 := if oldCurrent.Some? then ModifySpec(t3, oldCurrent.value, ToNotCurrent, true).0 else t3;
        FinalMatch(t4, i)
  }

  /** `get_current` only retags: every entry keeps its id, its context
      handle and its position, and the counter is unchanged. */
  lemma {:induction false} GetCurrentKeepsEntries(t: Tracker, id: nat, makeCurrentOk: bool, oldNotCurrentOk: bool, idNotCurrentOk: bool)
    requires Valid(t) && Find(t.others, id).Some?
    ensures var t' := GetCurrentSpec(t, id, makeCurrentOk, oldNotCurrentOk, idNotCurrentOk).0;
            && t'.nextId == t.nextId && |t'.others| == |t.others|
            && forall j :: 0 <= j < |t.others| ==> t'.others[j].id == t.others[j].id && t'.others[j].ctx.ctx == t.others[j].ctx.ctx
  {
    if t.current != Some(id) {
      var t1 := t.(current := None);
      ModifyEffect(t1, id, ToCurrent, makeCurrentOk);
      var (t2, ok) := ModifySpec(t1, id, ToCurrent, makeCurrentOk);
      if !ok {
        var t3 := t2;
        if t.current.Some? {
          ModifyEffect(t2, t.current.value, ToNotCurrent, oldNotCurrentOk);
          t3 := ModifySpec(t2, t.current.value, ToNotCurrent, oldNotCurrentOk).0;
        }
        ModifyEffect(t3, id, ToNotCurrent, idNotCurrentOk);
      } else if t.current.Some? {
        ModifyEffect(t2.(current := Some(id)), t.current.value, ToNotCurrent, true);
      }
    }
  }

  /** `get_current` aborts exactly when the context is not current, making
      it current fails, there was a previous current context and making
      that one not current fails too. The other two aborts in the code
      cannot happen. */
  lemma {:induction false} GetCurrentPanicsIff(t: Tracker, id: nat, makeCurrentOk: bool, oldNotCurrentOk: bool, idNotCurrentOk: bool)
    requires Valid(t) && Find(t.others, id).Some?
    ensures GetCurrentSpec(t, id, makeCurrentOk, oldNotCurrentOk, idNotCurrentOk).1 == Panicked
            <==> t.current != Some(id) && !makeCurrentOk && t.current.Some? && !oldNotCurrentOk
  {
    var i := Find(t.others, id).value;
    if t.current == Some(id) {
      assert t.others[i].ctx.PossiblyCurrent?;
    } else {
      assert t.others[i].ctx.NotCurrent?;
      var t1 := t.(current := None);
      ModifyEffect(t1, id, ToCurrent, makeCurrentOk);
      var (t2, ok) := ModifySpec(t1, id, ToCurrent, makeCurrentOk);
      if !ok {
        if t.current.Some? {
          var k := Find(t.others, t.current.value).value;
          ModifyEffect(t2, t.current.value, ToNotCurrent, oldNotCurrentOk);
          var t3 := ModifySpec(t2, t.current.value, ToNotCurrent, oldNotCurrentOk).0;
          assert t3.others[i] == t2.others[i];
          ModifyEffect(t3, id, ToNotCurrent, idNotCurrentOk);
        } else {
          ModifyEffect(t2, id, ToNotCurrent, idNotCurrentOk);
        }
      } else {
        var t3 := t2.(current := Some(id));
        if t.current.Some? {
          var t4 := ModifySpec(t3, t.current.value, ToNotCurrent, true).0;
          assert t4.others[i] == t3.others[i];
        }
      }
    }
  }

  /** When `get_current` returns the context, it is now the current one,
      its entry is the only possibly-current entry, and the invariant
      holds. */
  lemma {:induction false} GetCurrentSuccess(t: Tracker, id: nat, makeCurrentOk: bool, oldNotCurrentOk: bool, idNotCurrentOk: bool)
    requires Valid(t) && Find(t.others, id).Some?
    requires t.current == Some(id) || makeCurrentOk
    ensures var (t', r) := GetCurrentSpec(t, id, makeCurrentOk, oldNotCurrentOk, idNotCurrentOk);
            && r == MadeCurrent(t.others[Find(t.others, id).value].ctx.ctx)
            && t'.current == Some(id)
            && Valid(t')
  {
    var i := Find(t.others, id).value;
    var (t', r) := GetCurrentSpec(t, id, makeCurrentOk, oldNotCurrentOk, idNotCurrentOk);
    if t.current != Some(id) {
      assert t.others[i].ctx.NotCurrent?;
      var t1 := t.(current := None);
      ModifyEffect(t1, id, ToCurrent, makeCurrentOk);
      var t2 := ModifySpec(t1, id, ToCurrent, makeCurrentOk).0;
      var t3 := t2.(current := Some(id));
      if t.current.Some? {
        var k := Find(t.others, t.current.value).value;
        ModifyEffect(t3, t.current.value, ToNotCurrent, true);
        assert t'.others[i] == t3.others[i];
        assert t'.others[k].ctx.NotCurrent?;
      }
      forall j | 0 <= j < |t'.others|
        ensures t'.others[j].ctx.PossiblyCurrent? <==> t'.current == Some(t'.others[j].id)
      {
        if j != i {
          assert t.others[j].id != id;
        }
      }
      FindSorted(t'.others, id, i);
    }
  }

  /** When making the context current fails (and nothing aborts), no
      context is current any more, none is possibly current, and `Err` is
      returned. */
  lemma {:induction false} GetCurrentFailure(t: Tracker, id: nat, makeCurrentOk: bool, oldNotCurrentOk: bool, idNotCurrentOk: bool)
    requires Valid(t) && Find(t.others, id).Some?
    requires t.current != Some(id) && !makeCurrentOk && (t.current.None? || oldNotCurrentOk)
    ensures var (t', r) := GetCurrentSpec(t, id, makeCurrentOk, oldNotCurrentOk, idNotCurrentOk);
            && r == MakeCurrentFailed
            && t'.current == None
            && (forall j :: 0 <= j < |t'.others| ==> t'.others[j].ctx.NotCurrent?)
            && Valid(t')
  {
    var i := Find(t.others, id).value;
    assert t.others[i].ctx.NotCurrent?;
    var t1 := t.(current := None);
    ModifyEffect(t1, id, ToCurrent, makeCurrentOk);
    var t2 := ModifySpec(t1, id, ToCurrent, makeCurrentOk).0;
    var t3 := t2;
    if t.current.Some? {
      var k := Find(t.others, t.current.value).value;
      ModifyEffect(t2, t.current.value, ToNotCurrent, oldNotCurrentOk);
      t3 := ModifySpec(t2, t.current.value, ToNotCurrent, oldNotCurrentOk).0;
      assert t3.others[k].ctx.NotCurrent?;
    }
    ModifyEffect(t3, id, ToNotCurrent, idNotCurrentOk);
    var (t', r) := GetCurrentSpec(t, id, makeCurrentOk, oldNotCurrentOk, idNotCurrentOk);
    assert t' == ModifySpec(t3, id, ToNotCurrent, idNotCurrentOk).0;
    forall j | 0 <= j < |t'.others|
      ensures t'.others[j].ctx.NotCurrent?
    {
      if j != i && (t.current.None? || j != Find(t.others, t.current.value).value) {
        assert t.others[j].id != id;
        assert t.others[j].ctx.NotCurrent?;
      }
    }
  }

  // ---------------------------------------------------------------------
  // The tracker object

  /** Whenever `get_current` returns, whether it made the context current
      or failed to, the invariant holds afterwards. */
  lemma {:induction false} GetCurrentKeepsValid(t: Tracker, id: nat, makeCurrentOk: bool, oldNotCurrentOk: bool, idNotCurrentOk: bool)
    requires Valid(t) && Find(t.others, id).Some?
    ensures var (t', r) := GetCurrentSpec(t, id, makeCurrentOk, oldNotCurrentOk, idNotCurrentOk);
            r != Panicked ==> Valid(t')
  {
    GetCurrentPanicsIff(t, id, makeCurrentOk, oldNotCurrentOk, idNotCurrentOk);
    if t.current == Some(id) || makeCurrentOk {
      GetCurrentSuccess(t, id, makeCurrentOk, oldNotCurrentOk, idNotCurrentOk);
    } else if t.current.None? || oldNotCurrentOk {
      GetCurrentFailure(t, id, makeCurrentOk, oldNotCurrentOk, idNotCurrentOk);
    }
  }

  class ContextTracker {
    var current: Option<nat>
    var others: seq<Entry>
    var nextId: nat

    function Snapshot(): Tracker
      reads this
    {
      Tracker(current, others, nextId)
    }

    constructor ()
      ensures Snapshot() == EmptyTracker && Valid(Snapshot())
    {
      current := None;
      others := [];
      nextId := 0;
    }

    method Modify(id: nat, change: Change, ok: bool) returns (r: Result<(), ()>)
      requires SortedIds(others) && Find(others, id).Some?
      modifies this
      ensures Snapshot() == ModifySpec(old(Snapshot()), id, change, ok).0
      ensures r.Ok? == ModifySpec(old(Snapshot()), id, change, ok).1
    {
      var thisIndex := BinarySearch(others, id);
      var i := thisIndex.value;
      var thisContext := others[i].ctx;
      var res := if change == ToNotCurrent then MapPossibly(thisContext, ok) else MapNot(thisContext, ok);
      match res {
        case Err(ctx) =>
          others := others[i := Entry(others[i].id, ctx)];
          r := Err(());
        case Ok(ctx) =>
          others := others[i := Entry(others[i].id, ctx)];
          r := Ok(());
      }
    }

    method Insert(ctx: Tagged) returns (id: nat)
      requires Valid(Snapshot())
      modifies this
      ensures (Snapshot(), id) == InsertSpec(old(Snapshot()), ctx)
      ensures Valid(Snapshot())
    {
      InsertKeepsValid(Snapshot(), ctx);
      id := nextId;
      nextId := nextId + 1;
      if ctx.PossiblyCurrent? {
        if current.Some? {
          var r := Modify(current.value, ToNotCurrent, true);
        }
        current := Some(id);
      }
      others := others + [Entry(id, ctx)];
    }

    /** `remove`; `None` stands for the abort when the id is not in the
        table. */
    method Remove(id: nat) returns (ctx: Option<Tagged>)
      requires Valid(Snapshot())
      modifies this
      ensures Find(old(others), id).None? ==> ctx.None? && Snapshot() == old(Snapshot())
      ensures Find(old(others), id).Some? ==> ctx.Some? && (Snapshot(), ctx.value) == RemoveSpec(old(Snapshot()), id)
      ensures Valid(Snapshot())
    {
      if Find(others, id).Some? {
        RemoveKeepsValid(Snapshot(), id);
      }
      if Some(id) == current {
        current := None;
      }
      var thisIndex := BinarySearch(others, id);
      if thisIndex.Err? {
        return None;
      }
      var i := thisIndex.value;
      ctx := Some(others[i].ctx);
      others := others[..i] + others[i + 1..];
    }

    /** `get_current`; an id that is not in the table aborts before
        anything changes. */
    method GetCurrent(id: nat, makeCurrentOk: bool, oldNotCurrentOk: bool, idNotCurrentOk: bool)
      returns (r: CurrentResult)
      requires Valid(Snapshot())
      modifies this
      ensures Find(old(others), id).None? ==> r == Panicked && Snapshot() == old(Snapshot())
      ensures Find(old(others), id).Some? ==>
                (Snapshot(), r) == GetCurrentSpec(old(Snapshot()), id, makeCurrentOk, oldNotCurrentOk, idNotCurrentOk)
      ensures r != Panicked ==> Valid(Snapshot())
    {
      var thisIndex := BinarySearch(others, id);
      if thisIndex.Err? {
        return Panicked;
      }
      GetCurrentKeepsValid(Snapshot(), id, makeCurrentOk, oldNotCurrentOk, idNotCurrentOk);
      r := GetCurrentAt(id, thisIndex.value, makeCurrentOk, oldNotCurrentOk, idNotCurrentOk);
    }

    /** The part of `get_current` after the lookup found the id at `i`. */
    method GetCurrentAt(id: nat, i: nat, makeCurrentOk: bool, oldNotCurrentOk: bool, idNotCurrentOk: bool)
      returns (r: CurrentResult)
      requires Valid(Snapshot()) && Find(others, id) == Some(i)
      modifies this
      ensures (Snapshot(), r) == GetCurrentSpec(old(Snapshot()), id, makeCurrentOk, oldNotCurrentOk, idNotCurrentOk)
    {
      if Some(id) != current {
        var oldCurrent := current;
        current := None;
        var made := Modify(id, ToCurrent, makeCurrentOk);
        if made.Err? {
          if oldCurrent.Some? {
            var undone := Modify(oldCurrent.value, ToNotCurrent, oldNotCurrentOk);
            if undone.Err? {
              return Panicked;
            }
          }
          var undone := Modify(id, ToNotCurrent, idNotCurrentOk);
          if undone.Err? {
            return Panicked;
          }
          return MakeCurrentFailed;
        }
        current := Some(id);
        if oldCurrent.Some? {
          var r := Modify(oldCurrent.value, ToNotCurrent, true);
        }
      }
      match others[i].ctx {
        case PossiblyCurrent(c) => r := MadeCurrent(c);
        case NotCurrent(_) => r := Panicked;
      }
    }
  }
}
