// reassign_registers: temporaries get new numbers, block by block, backwards.
//
// `regOf` is the source's `assigned`, `pool` its `reg_pool`; `used` and `n` are as there. The
// functions say what GET_REG, FREE_REG and the scan do to them, the class carries them out on arrays.
module Registers {
  datatype Regs = Regs(regOf: seq<int>, pool: seq<bool>, used: seq<bool>, n: nat)

  predicate Sized(st: Regs, T: nat) {
    |st.regOf| == T && |st.pool| == T && |st.used| == T
  }

  // The first register at or after j that is free, and never used before if `untouched`.
  function FindFree(st: Regs, j: nat, untouched: bool): (k: nat)
    requires j <= |st.pool| == |st.used|
    ensures j <= k <= |st.pool|
    ensures forall i :: j <= i < k ==> st.pool[i] || (untouched && st.used[i])
    ensures k < |st.pool| ==> !st.pool[k] && (untouched ==> !st.used[k])
    decreases |st.pool| - j
  {
    if j == |st.pool| then j
    else if !st.pool[j] && (!untouched || !st.used[j]) then j
    else FindFree(st, j + 1, untouched)
  }

  // GET_REG(r)
  function GetReg(st: Regs, r: nat, global: seq<bool>): (st': Regs)
    requires Sized(st, |global|) && r < |global|
    ensures Sized(st', |global|)
  {
    if st.regOf[r] >= 0 then st
    else
      var j := FindFree(st, 0, global[r]);
      if j < |global| then Take(st, r, j) else st
  }

  // FREE_REG on r's register
  function FreeReg(st: Regs, r: nat): (st': Regs)
    requires r < |st.regOf|
    ensures |st'.regOf| == |st.regOf| && |st'.pool| == |st.pool| && |st'.used| == |st.used|
  {
    if 0 <= st.regOf[r] < |st.pool| then st.(pool := st.pool[st.regOf[r] := false]) else st
  }

  // The start of a block: local temporaries give back their registers.
  function Release(st: Regs, global: seq<bool>, i: nat): (st': Regs)
    requires Sized(st, |global|) && i <= |global|
    ensures Sized(st', |global|)
    decreases |global| - i
  {
    if i == |global| then st
    else if global[i] then Release(st, global, i + 1)
    else
      var st1 := FreeReg(st, i);
      Release(st1.(regOf := st1.regOf[i := -1]), global, i + 1)
  }

  // ----- GET_REG always finds a register -----

  ghost function AssignedGlobals(st: Regs, global: seq<bool>): set<nat>
    requires Sized(st, |global|)
  {
    set r: nat | r < |global| && global[r] && st.regOf[r] >= 0
  }

  ghost function Locals(global: seq<bool>): set<nat> {
    set r: nat | r < |global| && !global[r]
  }

  // The registers used so far are the first n.
  ghost predicate Prefix(st: Regs, T: nat) {
    && Sized(st, T) && st.n <= T
    && (forall j :: 0 <= j < T ==> (st.used[j] <==> j < st.n))
    && (forall r :: 0 <= r < T ==> st.regOf[r] < st.n)
  }

  // `open` are the temporaries that hold their register, each its own.
  ghost predicate Holders(st: Regs, open: set<nat>) {
    && (forall r: nat :: r in open ==> r < |st.regOf| && st.regOf[r] >= 0)
    && (forall r: nat, s: nat :: r in open && s in open && r != s ==> st.regOf[r] != st.regOf[s])
  }

  ghost predicate HeldBy(st: Regs, open: set<nat>, j: nat) {
    exists r: nat :: r in open && r < |st.regOf| && st.regOf[r] == j
  }

  ghost predicate PoolIsHeld(st: Regs, open: set<nat>) {
    forall j: nat :: j < |st.pool| ==> (st.pool[j] <==> HeldBy(st, open, j))
  }

  ghost predicate RegInv(st: Regs, open: set<nat>, global: seq<bool>) {
    && Prefix(st, |global|) && Holders(st, open) && PoolIsHeld(st, open)
    && st.n <= |AssignedGlobals(st, global)| + |Locals(global)|
  }

  ghost function OpenAfterGet(st: Regs, open: set<nat>, r: nat): set<nat>
    requires r < |st.regOf|
  {
    if st.regOf[r] >= 0 then open else open + {r}
  }

  // Distinct registers have distinct holders.
  lemma {:induction false} HoldersCount(st: Regs, open: set<nat>, global: seq<bool>, n: nat)
    requires RegInv(st, open, global) && n <= |global|
    requires forall j :: 0 <= j < n ==> st.pool[j]
    ensures n <= |open|
  {
    var held := set r: nat | r in open && st.regOf[r] < n;
    HeldCount(st, open, global, n);
    assert held <= open;
    SubsetCount(held, open);
  }

  lemma {:induction false} HeldCount(st: Regs, open: set<nat>, global: seq<bool>, n: nat)
    requires RegInv(st, open, global) && n <= |global|
    requires forall j :: 0 <= j < n ==> st.pool[j]
    ensures n <= |set r: nat | r in open && st.regOf[r] < n|
    decreases n
  {
    if n > 0 {
      HeldCount(st, open, global, n - 1);
      var before, now := (set r: nat | r in open && st.regOf[r] < n - 1), (set r: nat | r in open && st.regOf[r] < n);
      assert HeldBy(st, open, n - 1);
      var r: nat :| r in open && r < |st.regOf| && st.regOf[r] == n - 1;
      assert before + {r} <= now && r !in before;
      SubsetCount(before + {r}, now);
    }
  }

  lemma {:induction false} SubsetCount<A>(a: set<A>, b: set<A>)
    requires a <= b
    ensures |a| <= |b|
    decreases a
  {
    if a != {} {
      var x :| x in a;
      SubsetCount(a - {x}, b - {x});
    }
  }

  ghost function Temporaries(n: nat): (s: set<nat>)
    ensures |s| == n && forall r: nat :: r in s <==> r < n
  {
    if n == 0 then {} else Temporaries(n - 1) + {n - 1}
  }

  // Globals and locals together are all the temporaries.
  lemma AllTemporaries(global: seq<bool>)
    ensures |set r: nat | r < |global| && global[r]| + |Locals(global)| == |global|
  {
    var gs := set r: nat | r < |global| && global[r];
    assert Temporaries(|global|) == gs + Locals(global);
  }

  // GET_REG: a free register is found, the invariant is kept, a global gets one never used before, and a local the
  // lowest that nobody holds.
  lemma GetRegFinds(st: Regs, open: set<nat>, r: nat, global: seq<bool>)
    requires RegInv(st, open, global) && r < |global|
    ensures var st' := GetReg(st, r, global);
            && RegInv(st', OpenAfterGet(st, open, r), global)
            && 0 <= st'.regOf[r] < |global|
            && (global[r] && st.regOf[r] < 0 ==> st'.regOf[r] == st.n)
            && (st.regOf[r] < 0 ==> forall s :: s in open ==> st.regOf[s] != st'.regOf[r])
            && (!global[r] && st.regOf[r] < 0 ==> forall k: nat :: k < st'.regOf[r] ==> HeldBy(st, open, k))
  {
    if st.regOf[r] < 0 {
      var j := FindFree(st, 0, global[r]);
      GlobalsBelow(st, global);
      if global[r] {
        FreshIsFree(st, open, global, r);
      } else {
        LocalFindsRoom(st, open, global, r);
      }
      GetRegKeeps(st, open, r, j, global);
    }
  }

  lemma GlobalsBelow(st: Regs, global: seq<bool>)
    requires Sized(st, |global|)
    ensures AssignedGlobals(st, global) <= set r: nat | r < |global| && global[r]
  {
  }

  // A global that has no register yet: the next register after the used ones is free and in range.
  lemma FreshIsFree(st: Regs, open: set<nat>, global: seq<bool>, r: nat)
    requires RegInv(st, open, global) && r < |global| && global[r] && st.regOf[r] < 0
    ensures FindFree(st, 0, true) == st.n < |global|
    ensures st.n + 1 <= |AssignedGlobals(st, global) + {r}| + |Locals(global)|
  {
    var gs := set r: nat | r < |global| && global[r];
    AllTemporaries(global);
    assert r !in AssignedGlobals(st, global);
    SubsetCount(AssignedGlobals(st, global) + {r}, gs);
    UnusedFromN(st, open, global);
  }

  lemma UnusedFromN(st: Regs, open: set<nat>, global: seq<bool>)
    requires RegInv(st, open, global)
    ensures FindFree(st, 0, true) == st.n
  {
    assert st.n < |global| ==> !st.pool[st.n];
  }

  // A local that has no register yet finds one, and needs a new one only when all used ones are held.
  lemma LocalFindsRoom(st: Regs, open: set<nat>, global: seq<bool>, r: nat)
    requires RegInv(st, open, global) && r < |global| && !global[r] && st.regOf[r] < 0
    ensures var j := FindFree(st, 0, false);
            j <= st.n && j < |global| && (j == st.n ==> st.n + 1 <= |AssignedGlobals(st, global)| + |Locals(global)|)
  {
    var j := FindFree(st, 0, false);
    if st.n < |global| { assert !st.pool[st.n]; }
    if j >= st.n {
      HoldersCount(st, open, global, st.n);
      var others := Locals(global) - {r};
      assert open <= AssignedGlobals(st, global) + others;
      SubsetCount(open, AssignedGlobals(st, global) + others);
      var gs := set r: nat | r < |global| && global[r];
      AllTemporaries(global);
      SubsetCount(AssignedGlobals(st, global), gs);
    }
  }

  function Take(st: Regs, r: nat, j: nat): Regs
    requires r < |st.regOf| && j < |st.pool| && j < |st.used|
  {
    Regs(st.regOf[r := j], st.pool[j := true], st.used[j := true], if j + 1 > st.n then j + 1 else st.n)
  }

  lemma TakePool(st: Regs, open: set<nat>, r: nat, j: nat, T: nat)
    requires Sized(st, T) && Holders(st, open) && PoolIsHeld(st, open) && r < T && st.regOf[r] < 0 && j < T
    requires !st.pool[j]
    ensures PoolIsHeld(Take(st, r, j), open + {r})
    ensures Holders(Take(st, r, j), open + {r})
  {
    var st' := Take(st, r, j);
    forall i: nat | i < T ensures st'.pool[i] <==> HeldBy(st', open + {r}, i) {
      if i == j {
        assert r in open + {r} && st'.regOf[r] == j;
      } else if st.pool[i] {
        assert HeldBy(st, open, i);
        var s: nat :| s in open && s < |st.regOf| && st.regOf[s] == i;
        assert s in open + {r} && st'.regOf[s] == i;
      } else {
        assert !HeldBy(st, open, i);
      }
    }
    assert !HeldBy(st, open, j);
  }

  lemma GetRegKeeps(st: Regs, open: set<nat>, r: nat, j: nat, global: seq<bool>)
    requires RegInv(st, open, global) && r < |global| && st.regOf[r] < 0
    requires j <= st.n && j < |global| && !st.pool[j]
    requires j == st.n ==> st.n + 1 <= |AssignedGlobals(st, global) + if global[r] then {r} else {}| + |Locals(global)|
    ensures RegInv(Take(st, r, j), open + {r}, global)
    ensures forall s: nat :: s in open ==> st.regOf[s] != j
  {
    var st' := Take(st, r, j);
    assert AssignedGlobals(st', global) == AssignedGlobals(st, global) + if global[r] then {r} else {};
    SubsetCount(AssignedGlobals(st, global), AssignedGlobals(st', global));
    TakePool(st, open, r, j, |global|);
    assert !HeldBy(st, open, j);
  }

  ghost function OpenAfterFree(st: Regs, open: set<nat>, r: nat): set<nat>
    requires r < |st.regOf|
  {
    set s: nat | s in open && s < |st.regOf| && st.regOf[s] != st.regOf[r]
  }

  lemma FreeRegKeeps(st: Regs, open: set<nat>, r: nat, global: seq<bool>)
    requires RegInv(st, open, global) && r < |global|
    ensures RegInv(FreeReg(st, r), OpenAfterFree(st, open, r), global)
  {
    var st', open' := FreeReg(st, r), OpenAfterFree(st, open, r);
    assert AssignedGlobals(st', global) == AssignedGlobals(st, global);
    forall i: nat | i < |global| ensures st'.pool[i] <==> HeldBy(st', open', i) {
      assert st.pool[i] <==> HeldBy(st, open, i);
      if HeldBy(st, open, i) && st.regOf[r] != i {
        var s: nat :| s in open && s < |st.regOf| && st.regOf[s] == i;
        assert s in open' && st'.regOf[s] == i;
      }
      if HeldBy(st', open', i) {
        var s: nat :| s in open' && s < |st'.regOf| && st'.regOf[s] == i;
        assert s in open && st.regOf[s] == i;
      }
    }
  }

  // A temporary that does not hold its register can forget it.
  lemma ForgetKeeps(st: Regs, open: set<nat>, r: nat, global: seq<bool>)
    requires RegInv(st, open, global) && r < |global| && r !in open && !global[r]
    ensures RegInv(st.(regOf := st.regOf[r := -1]), open, global)
  {
    var st' := st.(regOf := st.regOf[r := -1]);
    assert AssignedGlobals(st', global) == AssignedGlobals(st, global);
    forall i: nat | i < |global| ensures st'.pool[i] <==> HeldBy(st', open, i) {
      assert st.pool[i] <==> HeldBy(st, open, i);
      if HeldBy(st, open, i) {
        var s: nat :| s in open && s < |st.regOf| && st.regOf[s] == i;
        assert st'.regOf[s] == i;
      }
      if HeldBy(st', open, i) {
        var s: nat :| s in open && s < |st'.regOf| && st'.regOf[s] == i;
        assert st.regOf[s] == i;
      }
    }
  }
}
