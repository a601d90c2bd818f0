/**
  The tree the folder shows, as the rows' local parents say it: which item is in which
  directory. Everything the depth and cycle checks of the item store rest on is proved
  here of a bare parent map.
*/
module ItemTree {
  import opened Wrappers

  datatype ItemId = ItemId(number: int)

  type Parents = map<ItemId, ItemId>

  const ROOT := ItemId(1)

  /** Directories deeper than this are a cycle or corruption. */
  const MAX_CHAIN: nat := 130

  /** From `s[0]` up: each element is in the next one, and the last is in nothing. */
  predicate IsChain(p: Parents, s: seq<ItemId>)
    decreases |s|
  {
    && |s| > 0
    && if |s| == 1 then s[0] !in p else s[0] in p && p[s[0]] == s[1] && IsChain(p, s[1..])
  }

  /** The walk up from `id`, of at most `fuel` items; none when it goes on beyond. */
  function Up(p: Parents, id: ItemId, fuel: nat): Option<seq<ItemId>>
    decreases fuel
  {
    if fuel == 0 then None
    else if id !in p then Some([id])
    else match Up(p, p[id], fuel - 1)
      case None => None
      case Some(above) => Some([id] + above)
  }

  /** Every item is in a directory of the tree, and every walk up ends within the bound. */
  ghost predicate IsTree(p: Parents) {
    && ROOT !in p
    && (forall id <- p :: p[id] in p || p[id] == ROOT)
    && (forall id <- p :: Up(p, id, MAX_CHAIN + 1).Some?)
  }

  function Children(p: Parents, level: set<ItemId>): set<ItemId> {
    set id | id in p && p[id] in level
  }

  /** How many levels there are below the items of `level`, looking `fuel` levels down. */
  function LevelsBelow(p: Parents, level: set<ItemId>, fuel: nat): nat
    decreases fuel
  {
    var below := Children(p, level);
    if fuel == 0 || below == {} then 0 else 1 + LevelsBelow(p, below, fuel - 1)
  }

  /** The two rules asked before `item` is placed in `directory`. */
  predicate CanHold(p: Parents, directory: ItemId, item: ItemId) {
    match Up(p, directory, MAX_CHAIN + 1)
    case None => false
    case Some(directories) =>
      && item !in directories
      && |directories| + LevelsBelow(p, {item}, MAX_CHAIN + 1) <= MAX_CHAIN
  }

  // ---------------------------------------------------------------- chains and walks

  lemma {:induction false} UpIsChain(p: Parents, id: ItemId, fuel: nat)
    ensures Up(p, id, fuel).Some? ==>
              && var s := Up(p, id, fuel).value;
              && IsChain(p, s) && s[0] == id && |s| <= fuel
    decreases fuel
  {
    if fuel > 0 && id in p {
      UpIsChain(p, p[id], fuel - 1);
      if Up(p, p[id], fuel - 1).Some? {
        assert Up(p, id, fuel).value[1..] == Up(p, p[id], fuel - 1).value;
      }
    }
  }

  lemma {:induction false} ChainIsUp(p: Parents, s: seq<ItemId>, fuel: nat)
    requires IsChain(p, s) && |s| <= fuel
    ensures Up(p, s[0], fuel) == Some(s)
    decreases |s|
  {
    if |s| > 1 {
      ChainIsUp(p, s[1..], fuel - 1);
      assert [s[0]] + s[1..] == s;
    } else {
      assert s == [s[0]];
    }
  }

  /** A walk that takes more steps than the bound does not end within it. */
  lemma {:induction false} LongChainIsNotUp(p: Parents, s: seq<ItemId>, fuel: nat)
    requires IsChain(p, s) && |s| > fuel
    ensures Up(p, s[0], fuel).None?
  {
    if Up(p, s[0], fuel).Some? {
      UpIsChain(p, s[0], fuel);
      ChainIsUp(p, s, |s|);
      ChainIsUp(p, Up(p, s[0], fuel).value, |s|);
    }
  }

  lemma {:induction false} ChainStep(p: Parents, s: seq<ItemId>, i: nat)
    requires IsChain(p, s) && i < |s|
    ensures IsChain(p, s[i..])
    ensures i < |s| - 1 ==> s[i] in p && p[s[i]] == s[i + 1]
    ensures i == |s| - 1 ==> s[i] !in p
  {
    if i > 0 {
      ChainStep(p, s[1..], i - 1);
      assert s[1..][i - 1..] == s[i..];
    } else {
      assert s[0..] == s;
    }
  }

  /** Steps up from an item, each to the directory the one before is in, to the root: at most 130 of them. */
  ghost predicate IsWayUp(p: Parents, id: ItemId, s: seq<ItemId>) {
    && 1 <= |s| <= 131 && s[0] == id && s[|s| - 1] == ItemId(1)
    && forall i :: 0 <= i < |s| - 1 ==> s[i] in p && p[s[i]] == s[i + 1]
  }

  lemma {:induction false} StepsAreChain(p: Parents, s: seq<ItemId>)
    requires |s| >= 1 && s[|s| - 1] !in p && forall i :: 0 <= i < |s| - 1 ==> s[i] in p && p[s[i]] == s[i + 1]
    ensures IsChain(p, s)
    decreases |s|
  {
    if |s| > 1 {
      assert s[0] in p && p[s[0]] == s[1];
      forall i | 0 <= i < |s[1..]| - 1
        ensures s[1..][i] in p && p[s[1..][i]] == s[1..][i + 1]
      {
        assert s[i + 1] in p;
      }
      StepsAreChain(p, s[1..]);
    }
  }

  lemma TreeHasWayUp(p: Parents, id: ItemId)
    requires IsTree(p) && id in p
    ensures Up(p, id, MAX_CHAIN + 1).Some? && IsWayUp(p, id, Up(p, id, MAX_CHAIN + 1).value)
  {
    UpIsChain(p, id, MAX_CHAIN + 1);
    var s := Up(p, id, MAX_CHAIN + 1).value;
    ChainEndsAtRoot(p, s);
    forall i | 0 <= i < |s| - 1
      ensures s[i] in p && p[s[i]] == s[i + 1]
    {
      ChainStep(p, s, i);
    }
  }

  /** The rows are a tree exactly when from every item there is a way up to the root, which is in nothing. */
  lemma TreeIff(p: Parents)
    ensures IsTree(p) <==> ItemId(1) !in p && forall id <- p :: exists s :: IsWayUp(p, id, s)
  {
    if IsTree(p) {
      forall id <- p
        ensures exists s :: IsWayUp(p, id, s)
      {
        TreeHasWayUp(p, id);
      }
    }
    if ItemId(1) !in p && forall id <- p :: exists s :: IsWayUp(p, id, s) {
      forall id <- p
        ensures Up(p, id, MAX_CHAIN + 1).Some? && (p[id] in p || p[id] == ROOT)
      {
        var s :| IsWayUp(p, id, s);
        StepsAreChain(p, s);
        ChainIsUp(p, s, MAX_CHAIN + 1);
        assert s[0] in p && p[s[0]] == s[1];
        if |s| > 2 {
          assert s[1] in p;
        }
      }
    }
  }

  /** An item is met once on a walk up. */
  lemma ChainHasNoRepeat(p: Parents, s: seq<ItemId>, i: nat, j: nat)
    requires IsChain(p, s) && i < j < |s|
    ensures s[i] != s[j]
  {
    ChainStep(p, s, i);
    ChainStep(p, s, j);
    if s[i] == s[j] {
      ChainIsUp(p, s[i..], |s|);
      ChainIsUp(p, s[j..], |s|);
    }
  }

  /** A walk is not changed by what is not on it. */
  lemma {:induction false} ChainCarries(p: Parents, q: Parents, s: seq<ItemId>)
    requires IsChain(p, s)
    requires forall i :: 0 <= i < |s| ==> (s[i] in p <==> s[i] in q) && (s[i] in p ==> p[s[i]] == q[s[i]])
    ensures IsChain(q, s)
    decreases |s|
  {
    assert s[0] in p <==> s[0] in q;
    if |s| > 1 {
      ChainCarries(p, q, s[1..]);
    }
  }

  lemma {:induction false} ChainAppends(p: Parents, s: seq<ItemId>, t: seq<ItemId>)
    requires IsChain(p, t) && |s| > 0
    requires forall i :: 0 <= i < |s| ==> s[i] in p && p[s[i]] == (s + t)[i + 1]
    ensures IsChain(p, s + t)
    decreases |s|
  {
    assert (s + t)[1..] == s[1..] + t;
    assert s[0] in p && p[s[0]] == (s + t)[1];
    if |s| > 1 {
      forall i | 0 <= i < |s[1..]|
        ensures s[1..][i] in p && p[s[1..][i]] == (s[1..] + t)[i + 1]
      {
        assert s[1..][i] == s[i + 1];
      }
      ChainAppends(p, s[1..], t);
    } else {
      assert s[1..] + t == t;
    }
  }

  /** In a tree every walk up ends at the root. */
  lemma {:induction false} ChainEndsAtRoot(p: Parents, s: seq<ItemId>)
    requires ROOT !in p && (forall id <- p :: p[id] in p || p[id] == ROOT)
    requires IsChain(p, s) && (s[0] in p || s[0] == ROOT)
    ensures s[|s| - 1] == ROOT
    decreases |s|
  {
    if |s| > 1 {
      ChainEndsAtRoot(p, s[1..]);
    }
  }

  function WalkUp(p: Parents, id: ItemId): (s: seq<ItemId>)
    requires Up(p, id, MAX_CHAIN + 1).Some?
    ensures IsChain(p, s) && s[0] == id && |s| <= MAX_CHAIN + 1
  {
    UpIsChain(p, id, MAX_CHAIN + 1);
    Up(p, id, MAX_CHAIN + 1).value
  }

  lemma WalkUpOfTree(p: Parents, id: ItemId)
    requires IsTree(p) && (id in p || id == ROOT)
    ensures Up(p, id, MAX_CHAIN + 1).Some?
    ensures WalkUp(p, id)[|WalkUp(p, id)| - 1] == ROOT
  {
    ChainEndsAtRoot(p, WalkUp(p, id));
  }

  // ---------------------------------------------------------------- levels below

  /** Whoever is `k` steps below a level makes it at least `k` levels deep. */
  lemma {:induction false} LevelsReach(p: Parents, level: set<ItemId>, s: seq<ItemId>, k: nat, fuel: nat)
    requires IsChain(p, s) && k < |s| && s[k] in level && k <= fuel
    ensures LevelsBelow(p, level, fuel) >= k
    decreases k
  {
    if k > 0 {
      ChainStep(p, s, k - 1);
      assert s[k - 1] in Children(p, level);
      LevelsReach(p, Children(p, level), s, k - 1, fuel - 1);
    }
  }

  /** As many levels as are counted, somebody is below, each step one in the next. */
  lemma {:induction false} LevelsWitness(p: Parents, level: set<ItemId>, id: ItemId, fuel: nat) returns (s: seq<ItemId>)
    requires id in level
    ensures |s| == LevelsBelow(p, level, fuel) + 1
    ensures s[|s| - 1] in level
    ensures forall i :: 0 <= i < |s| - 1 ==> s[i] in p && p[s[i]] == s[i + 1]
    decreases fuel
  {
    var below := Children(p, level);
    s := [id];
    if fuel > 0 {
      if child :| child in below {
        var deeper := LevelsWitness(p, below, child, fuel - 1);
        s := deeper + [p[deeper[|deeper| - 1]]];
      }
    }
  }

  // ---------------------------------------------------------------- changes of the tree

  /** The walk up of `id` once `item` is in `directory`. */
  lemma ChainAfterMove(p: Parents, item: ItemId, directory: ItemId, s: seq<ItemId>, up: seq<ItemId>) returns (moved: seq<ItemId>)
    requires IsChain(p, s) && IsChain(p, up) && up[0] == directory
    requires item in p && item !in up
    ensures IsChain(p[item := directory], moved) && moved[0] == s[0]
    ensures item !in s ==> moved == s
    ensures forall k :: 0 <= k < |s| && s[k] == item ==> |moved| == k + 1 + |up|
  {
    assert |s| > 0 && |up| > 0;
    hide IsChain;
    var q := p[item := directory];
    ChainCarries(p, q, up);
    if item !in s {
      ChainCarries(p, q, s);
      return s;
    }
    var k :| 0 <= k < |s| && s[k] == item;
    forall i | 0 <= i <= k
      ensures s[i] in q && q[s[i]] == (if i < k then s[i + 1] else up[0])
    {
      ChainStep(p, s, i);
      if i < k {
        ChainHasNoRepeat(p, s, i, k);
      }
    }
    forall j | 0 <= j < |s| && s[j] == item
      ensures j == k
    {
      if j < k { ChainHasNoRepeat(p, s, j, k); } else if k < j { ChainHasNoRepeat(p, s, k, j); }
    }
    ChainAppends(q, s[..k + 1], up);
    return s[..k + 1] + up;
  }

  lemma MoveKeepsTree(p: Parents, item: ItemId, directory: ItemId)
    requires IsTree(p) && item in p && (directory in p || directory == ROOT)
    requires CanHold(p, directory, item)
    ensures IsTree(p[item := directory])
  {
    var q := p[item := directory];
    var up := WalkUp(p, directory);
    forall id <- q
      ensures Up(q, id, MAX_CHAIN + 1).Some?
    {
      var s := WalkUp(p, id);
      var moved := ChainAfterMove(p, item, directory, s, up);
      if item in s {
        var k :| 0 <= k < |s| && s[k] == item;
        LevelsReach(p, {item}, s, k, MAX_CHAIN + 1);
      }
      ChainIsUp(q, moved, MAX_CHAIN + 1);
    }
  }

  /** The other half: what is refused would have been no tree. */
  lemma RefusedMoveIsNoTree(p: Parents, item: ItemId, directory: ItemId)
    requires IsTree(p) && item in p && (directory in p || directory == ROOT)
    requires !CanHold(p, directory, item)
    ensures !IsTree(p[item := directory])
  {
    hide Up, IsChain, LevelsBelow, Children;
    var q := p[item := directory];
    WalkUpOfTree(p, directory);
    var up := WalkUp(p, directory);
    if IsTree(q) {
      if item in up {
        LoopIsNoTree(p, item, directory, up);
      } else {
        var s := LevelsWitness(p, {item}, item, MAX_CHAIN + 1);
        if item in s[..|s| - 1] {
          var i :| 0 <= i < |s| - 1 && s[i] == item;
          RoundTripIsNoTree(p, s[i..]);
        }
        ChainCarries(p, q, up);
        ChainAppends(q, s, up);
        assert (s + up)[0] == s[0] && s[0] in q;
        LongChainIsNotUp(q, s + up, MAX_CHAIN + 1);
      }
    }
  }

  /** Steps that come back to where they began are in no tree. */
  lemma RoundTripIsNoTree(p: Parents, s: seq<ItemId>)
    requires |s| > 1 && s[0] == s[|s| - 1]
    requires forall i :: 0 <= i < |s| - 1 ==> s[i] in p && p[s[i]] == s[i + 1]
    ensures !IsTree(p)
  {
    if IsTree(p) {
      var walk := WalkUp(p, s[0]);
      ChainAppends(p, s[..|s| - 1], walk);
      ChainIsUp(p, s[..|s| - 1] + walk, |s| + |walk|);
      ChainIsUp(p, walk, |s| + |walk|);
    }
  }

  lemma LoopIsNoTree(p: Parents, item: ItemId, directory: ItemId, up: seq<ItemId>)
    requires IsChain(p, up) && up[0] == directory && item in p && item in up
    ensures !IsTree(p[item := directory])
  {
    var q := p[item := directory];
    var k :| 0 <= k < |up| && up[k] == item;
    forall i | 0 <= i < k
      ensures up[i] in q && q[up[i]] == up[i + 1]
    {
      ChainStep(p, up, i);
      ChainHasNoRepeat(p, up, i, k);
    }
    RoundTripIsNoTree(q, [item] + up[..k + 1]);
  }

  /** The checks before an item is placed say exactly whether the tree stays a tree. */
  lemma CanHoldIffTree(p: Parents, item: ItemId, directory: ItemId)
    requires IsTree(p) && item in p && (directory in p || directory == ROOT)
    ensures CanHold(p, directory, item) <==> IsTree(p[item := directory])
  {
    if CanHold(p, directory, item) {
      MoveKeepsTree(p, item, directory);
    } else {
      RefusedMoveIsNoTree(p, item, directory);
    }
  }

  /** A new item at the end of a directory's walk, within the bound. */
  lemma AddKeepsTree(p: Parents, item: ItemId, directory: ItemId)
    requires IsTree(p) && item !in p && item != ROOT && (directory in p || directory == ROOT)
    requires forall id <- p :: p[id] != item
    requires Up(p, directory, MAX_CHAIN + 1).Some? && |WalkUp(p, directory)| <= MAX_CHAIN
    ensures IsTree(p[item := directory])
  {
    var q := p[item := directory];
    forall id <- q
      ensures Up(q, id, MAX_CHAIN + 1).Some?
    {
      var from := if id == item then directory else id;
      WalkUpOfTree(p, from);
      var s := WalkUp(p, from);
      AbsentIsNotOnWalk(p, s, item);
      ChainCarries(p, q, s);
      if id == item {
        assert ([item] + s)[1..] == s;
        ChainIsUp(q, [item] + s, MAX_CHAIN + 1);
      } else {
        ChainIsUp(q, s, MAX_CHAIN + 1);
      }
    }
  }

  lemma AbsentIsNotOnWalk(p: Parents, s: seq<ItemId>, item: ItemId)
    requires IsChain(p, s) && s[0] != item && (forall id <- p :: p[id] != item)
    ensures item !in s
  {
    if i :| 0 <= i < |s| && s[i] == item {
      ChainStep(p, s, i - 1);
    }
  }

  /** An item with nothing in it goes. */
  lemma RemoveKeepsTree(p: Parents, item: ItemId)
    requires IsTree(p) && (forall id <- p :: p[id] != item)
    ensures IsTree(p - {item})
  {
    var q := p - {item};
    forall id <- q
      ensures Up(q, id, MAX_CHAIN + 1).Some?
    {
      var s := WalkUp(p, id);
      AbsentIsNotOnWalk(p, s, item);
      ChainCarries(p, q, s);
      ChainIsUp(q, s, MAX_CHAIN + 1);
    }
  }

  /** Two items take each other's place: asked of both before either moved. */
  lemma ExchangeKeepsTree(p: Parents, first: ItemId, second: ItemId)
    requires IsTree(p) && first in p && second in p && first != second
    requires CanHold(p, p[second], first) && CanHold(p, p[first], second)
    ensures IsTree(p[first := p[second]][second := p[first]])
  {
    var q := p[first := p[second]];
    MoveKeepsTree(p, first, p[second]);
    var up := WalkUp(p, p[first]);
    FirstIsNotOnItsOwnWalk(p, first);
    ChainCarries(p, q, up);
    ChainIsUp(q, up, MAX_CHAIN + 1);
    NoDeeperBelowSecond(p, q, first, second);
    MoveKeepsTree(q, second, p[first]);
  }

  lemma FirstIsNotOnItsOwnWalk(p: Parents, first: ItemId)
    requires IsTree(p) && first in p
    ensures Up(p, p[first], MAX_CHAIN + 1).Some? && first !in WalkUp(p, p[first])
  {
    var s := WalkUp(p, first);
    ChainIsUp(p, s[1..], MAX_CHAIN + 1);
    if k :| 0 < k < |s| && s[k] == first {
      ChainHasNoRepeat(p, s, 0, k);
    }
  }

  /** What is below `second` once `first` moved beside it was below it before. */
  lemma NoDeeperBelowSecond(p: Parents, q: Parents, first: ItemId, second: ItemId)
    requires IsTree(p) && first in p && second in p && first != second
    requires q == p[first := p[second]] && IsTree(q)
    ensures LevelsBelow(q, {second}, MAX_CHAIN + 1) <= LevelsBelow(p, {second}, MAX_CHAIN + 1)
  {
    var s := LevelsWitness(q, {second}, second, MAX_CHAIN + 1);
    forall i | 0 <= i < |s| - 1
      ensures s[i] != first
    {
      if s[i] == first {
        RoundIsNoTree(q, s, i);
      }
    }
    if |s| > 1 {
      StepsAreLevels(p, s, second);
    }
  }

  /** Steps whose last item is in the directory that one of them comes to are in no tree. */
  lemma RoundIsNoTree(q: Parents, s: seq<ItemId>, i: nat)
    requires i < |s| - 1 && s[|s| - 1] in q && q[s[|s| - 1]] == s[i + 1]
    requires forall j :: 0 <= j < |s| - 1 ==> s[j] in q && q[s[j]] == s[j + 1]
    ensures !IsTree(q)
  {
    var round := s[i + 1..] + [s[i + 1]];
    forall j | 0 <= j < |round| - 1
      ensures round[j] in q && q[round[j]] == round[j + 1]
    {
      assert round[j] == s[i + 1 + j];
    }
    RoundTripIsNoTree(q, round);
  }

  /** Steps of a tree from somewhere up to `item` make it that many levels deep. */
  lemma StepsAreLevels(p: Parents, s: seq<ItemId>, item: ItemId)
    requires IsTree(p) && item in p && |s| > 1 && s[|s| - 1] == item
    requires forall i :: 0 <= i < |s| - 1 ==> s[i] in p && p[s[i]] == s[i + 1]
    ensures LevelsBelow(p, {item}, MAX_CHAIN + 1) >= |s| - 1
  {
    hide *;
    var chain := StepsAreOnWalk(p, s, item);
    LevelsReach(p, {item}, chain, |s| - 1, MAX_CHAIN + 1);
  }

  lemma StepsAreOnWalk(p: Parents, s: seq<ItemId>, item: ItemId) returns (chain: seq<ItemId>)
    requires IsTree(p) && item in p && |s| > 1 && s[|s| - 1] == item
    requires forall i :: 0 <= i < |s| - 1 ==> s[i] in p && p[s[i]] == s[i + 1]
    ensures IsChain(p, chain) && |s| <= |chain| <= MAX_CHAIN + 1 && chain[|s| - 1] in {item}
  {
    var walk, steps := WalkUp(p, item), s[..|s| - 1];
    chain := steps + walk;
    ChainAppends(p, steps, walk);
    assert chain[0] == s[0] && chain[|s| - 1] == item;
    var longer := |chain| + MAX_CHAIN + 1;
    ChainIsUp(p, chain, longer);
    ChainIsUp(p, WalkUp(p, s[0]), longer);
  }
}
