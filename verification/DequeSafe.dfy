/** Every step keeps the invariant of the deque, whatever the interleaving. */
module DequeSafe {
  import opened Options
  import opened Deque
  import opened Arithmetic

  lemma {:induction false} StoredSame(s: State, s': State)
    requires Stored(s) && s'.arrays == s.arrays && s'.cur == s.cur && s'.log == s.log
    requires s.top <= s'.top && High(s') <= High(s)
    ensures Stored(s')
  {
    forall i | s'.top <= i < High(s') ensures i in s'.log && Holds(s', s'.cur, i) {
      assert Holds(s, s.cur, i);
    }
  }

  // ----- the owner

  /** A step that only moves the owner's own locals, and claims nothing. */
  lemma {:induction false} Quiet(s: State, s': State)
    requires Core(s) && s' == s.(owner := s'.owner) && OwnerOk(s')
    requires High(s') == High(s) && Limit(s') == Limit(s)
    ensures Core(s')
  {
    StoredSame(s, s');
    ThievesSame(s, s');
  }

  /** What the thieves rely on: the slot and the log entry at `top`, as long as `top` stands. */
  ghost predicate TopKept(s: State, s': State) {
    && s.top < Limit(s)
    ==> && s.top < Limit(s')
        && (s.top in s.log ==> s.top in s'.log && s'.log[s.top] == s.log[s.top])
        && forall a: nat :: Holds(s, a, s.top) ==> Holds(s', a, s.top)
  }

  lemma {:induction false} ThievesKeep(s: State, s': State)
    requires ThievesOk(s) && s'.thieves == s.thieves
    requires s.top <= s'.top && (s.top == s'.top ==> TopKept(s, s'))
    ensures ThievesOk(s')
  {
    forall k | 0 <= k < |s.thieves| ensures ThiefOk(s', s'.thieves[k]) {
      assert ThiefOk(s, s.thieves[k]);
    }
  }

  lemma {:induction false} ThievesSame(s: State, s': State)
    requires ThievesOk(s) && s'.thieves == s.thieves && s'.arrays == s.arrays && s'.log == s.log && s'.top == s.top
    requires s.top < Limit(s) ==> s.top < Limit(s')
    ensures ThievesOk(s')
  {
    assert forall a: nat :: Holds(s, a, s.top) ==> Holds(s', a, s.top);
    ThievesKeep(s, s');
  }

  lemma {:induction false} LoadStep(s: State)
    requires Core(s)
    requires || s.owner.Idle? || s.owner.PushLoadTop? || s.owner.PushLoadArray? || s.owner.GrowLoadArray?
             || s.owner.GrowLoadTop? || s.owner.GrowLoadBottom? || s.owner.PushReload? || s.owner.TakeLoadArray?
    ensures Core(Move(s))
  {
    Quiet(s, Move(s));
  }

  lemma {:induction false} StartStep(s: State, step: Step)
    requires Core(s) && (step.StartPush? || step.StartTake?)
    requires step.StartTake? && s.owner.Idle? ==> s.pushed != []
    ensures Core(Next(s, step))
  {
    Quiet(s, Next(s, step));
  }

  lemma {:induction false} StoreKeeps(s: State, b: nat, x: Item, a: nat, i: nat)
    requires s.cur < |s.arrays| && b - Size(s, s.cur) < i < b && Holds(s, a, i)
    ensures Holds(s.(arrays := s.arrays[s.cur := Put(s.arrays[s.cur], b, Some(x))]), a, i)
  {
    SlotsDiffer(i, b, Size(s, s.cur));
  }

  lemma {:induction false} PushStoreStep(s: State)
    requires Core(s) && s.owner.PushStore?
    ensures Core(Move(s))
  {
    var s', b := Move(s), s.owner.b;
    assert Stored(s') by {
      forall i | s.top <= i < High(s') ensures i in s'.log && Holds(s', s'.cur, i) {
        StoreKeeps(s, b, s.owner.w, s.cur, i);
      }
    }
    assert ThievesOk(s') by {
      forall a: nat | Holds(s, a, s.top) && s.top < Limit(s) ensures Holds(s', a, s.top) {
        StoreKeeps(s, b, s.owner.w, a, s.top);
      }
      ThievesKeep(s, s');
    }
  }

  lemma {:induction false} PushPublishStep(s: State)
    requires Core(s) && s.owner.PushPublish?
    ensures Core(Move(s))
  {
    var s', b := Move(s), s.owner.b;
    forall i | s.top <= i < High(s') ensures i in s'.log && Holds(s', s'.cur, i) {
      assert i < b ==> Holds(s, s.cur, i);
    }
    assert forall a: nat :: Holds(s, a, s.top) && s.top < b ==> Holds(s', a, s.top);
    ThievesKeep(s, s');
  }

  lemma {:induction false} CopyKeeps(s: State, f: Array, i: nat)
    requires Bounds(s) && Stored(s) && High(s) == s.bottom == Limit(s)
    requires |f| == 2 * Size(s, s.cur) && i < s.bottom && Copied(s, f, i)
    ensures Copied(s, Put(f, i, Read(s, s.cur, i)), i + 1)
  {
    var f' := Put(f, i, Read(s, s.cur, i));
    forall j | s.top <= j < i + 1 && j < s.bottom ensures j in s.log && f'[j % |f'|] == Some(s.log[j]) {
      if j < i {
        SlotsDiffer(j, i, |f|);
      } else {
        assert Holds(s, s.cur, i);
      }
    }
  }

  lemma {:induction false} GrowCopyStep(s: State)
    requires Core(s) && s.owner.GrowCopy? && s.owner.i < s.owner.end
    ensures Core(Move(s))
  {
    CopyKeeps(s, s.owner.fresh_, s.owner.i);
    Quiet(s, Move(s));
  }

  lemma {:induction false} GrowPublishStep(s: State)
    requires Core(s) && s.owner.GrowCopy? && s.owner.i == s.owner.end
    ensures Core(Move(s))
  {
    var s', f := Move(s), s.owner.fresh_;
    assert Stored(s') by {
      forall i | s.top <= i < High(s') ensures i in s'.log && Holds(s', s'.cur, i) {
        assert f[i % |f|] == Some(s.log[i]);
      }
    }
    assert ThievesOk(s') by {
      assert forall a: nat :: a < |s.arrays| ==> Read(s', a, s.top) == Read(s, a, s.top);
      ThievesKeep(s, s');
    }
  }

  lemma {:induction false} TakeStoreStep(s: State)
    requires Core(s) && s.owner.TakeStoreBottom?
    ensures Core(Move(s))
  {
    var s' := Move(s);
    StoredSame(s, s');
    ThievesSame(s, s');
  }

  /** The owner reads `top`. If it lies below `bottom`, no thief can reach index `bottom` any more: it is claimed. */
  lemma {:induction false} TakeLoadTopStep(s: State)
    requires Core(s) && s.owner.TakeLoadTop?
    ensures Core(Move(s))
  {
    var s' := Move(s);
    StoredSame(s, s');
    ThievesSame(s, s');
  }

  lemma {:induction false} TakeLoadSlotStep(s: State)
    requires Core(s) && s.owner.TakeLoadSlot?
    ensures Core(Move(s))
  {
    var s', b := Move(s), s.owner.b;
    if s.owner.t == b {
      assert s.top == b ==> Holds(s, s.cur, b);
      Quiet(s, s');
    } else {
      assert Holds(s, s.cur, b);
      StoredSame(s, s');
      ThievesSame(s, s');
    }
  }

  lemma {:induction false} TakeCasStep(s: State)
    requires Core(s) && s.owner.TakeCas?
    ensures Core(Move(s))
  {
    var s', b := Move(s), s.owner.b;
    if s.top == b {
      StoredSame(s, s');
      ThievesKeep(s, s');
    } else {
      Quiet(s, s');
    }
  }

  lemma {:induction false} TakeRestoreStep(s: State)
    requires Core(s) && s.owner.TakeRestore?
    ensures Core(Move(s))
  {
    StoredSame(s, Move(s));
    ThievesKeep(s, Move(s));
  }

  lemma {:induction false} OwnerStep(s: State)
    requires Core(s)
    ensures Core(Move(s))
  {
    match s.owner
    case PushStore(_, _, _) => PushStoreStep(s);
    case PushPublish(_, _) => PushPublishStep(s);
    case GrowCopy(_, _, _, _, i, end) => if i < end { GrowCopyStep(s); } else { GrowPublishStep(s); }
    case TakeStoreBottom(_, _) => TakeStoreStep(s);
    case TakeLoadTop(_, _) => TakeLoadTopStep(s);
    case TakeLoadSlot(_, _, _) => TakeLoadSlotStep(s);
    case TakeCas(_, _, _) => TakeCasStep(s);
    case TakeRestore(_, _) => TakeRestoreStep(s);
    case _ => LoadStep(s);
  }

  // ----- the thieves

  lemma {:induction false} OthersKept(s: State, s': State, k: nat, th: Thief)
    requires ThievesOk(s) && k < |s.thieves| && s'.thieves == s.thieves[k := th] && ThiefOk(s', th)
    requires s'.arrays == s.arrays && s'.log == s.log && s.top <= s'.top && Limit(s') == Limit(s)
    ensures ThievesOk(s')
  {
    assert forall a: nat :: Holds(s, a, s.top) ==> Holds(s', a, s.top);
    forall j | 0 <= j < |s'.thieves| ensures ThiefOk(s', s'.thieves[j]) {
      assert j != k ==> ThiefOk(s, s.thieves[j]);
    }
  }

  /** No step of a thief disturbs the owner. */
  lemma {:induction false} OwnerKept(s: State, s': State)
    requires OwnerOk(s) && Bounds(s)
    requires s' == s.(top := s'.top, thieves := s'.thieves, out := s'.out)
    requires s'.top == s.top || s'.top == s.top + 1 <= Limit(s)
    ensures OwnerOk(s')
  {
    assert s.owner.PushPublish? ==> Read(s', s.cur, s.owner.b) == Read(s, s.cur, s.owner.b);
  }

  /** A step of thief `k` that leaves `top` alone and returns no item. */
  lemma {:induction false} ThiefLoads(s: State, s': State, k: nat, th: Thief)
    requires Core(s) && k < |s.thieves| && s' == s.(thieves := s.thieves[k := th], out := s'.out) && ThiefOk(s', th)
    requires s'.out == s.out || s'.out == s.out + [Empty] || s'.out == s.out + [Abort]
    ensures Core(s')
  {
    StoredSame(s, s');
    OthersKept(s, s', k, th);
    OwnerKept(s, s');
  }

  /** A thief takes index `top`. */
  lemma {:induction false} Stolen(s: State, k: nat)
    requires Core(s) && k < |s.thieves| && s.thieves[k].StealCas? && s.thieves[k].t == s.top
    ensures Core(Steal(s, k))
  {
    var s', t := Steal(s, k), s.top;
    assert ThiefOk(s, s.thieves[k]);
    OwnerKept(s, s');
    StoredSame(s, s');
    OthersKept(s, s', k, Away);
  }

  lemma {:induction false} StealStep(s: State, k: nat)
    requires Core(s) && k < |s.thieves| && !(s.thieves[k].StealCas? && s.thieves[k].t == s.top)
    ensures Core(Steal(s, k))
  {
    var s', th := Steal(s, k), s.thieves[k];
    assert ThiefOk(s, th);
    if !th.Away? {
      assert th.StealLoadArray? && th.t == s.top ==> Holds(s, s.cur, th.t);
      ThiefLoads(s, s', k, s'.thieves[k]);
    }
  }

  lemma {:induction false} StartStealStep(s: State, k: nat)
    requires Core(s)
    ensures Core(Next(s, StartSteal(k)))
  {
    if k < |s.thieves| && s.thieves[k].Away? {
      ThiefLoads(s, Next(s, StartSteal(k)), k, StealLoadBottom(s.top));
    }
  }

  lemma {:induction false} ThiefStep(s: State, k: nat)
    requires Core(s)
    ensures Core(Next(s, ThiefMove(k)))
  {
    if k < |s.thieves| {
      if s.thieves[k].StealCas? && s.thieves[k].t == s.top {
        Stolen(s, k);
      } else {
        StealStep(s, k);
      }
    }
  }
}
