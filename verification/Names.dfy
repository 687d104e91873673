/** stat and lstat on names that may be symbolic links. */
module Names {
  import opened Basics

  /** The most links one resolution follows. */
  const MAX_LINKS: nat := 40

  type Name = string

  datatype Node = Object(ino: nat) | Link(ino: nat, target: Name)

  type Names = map<Name, Node>

  datatype Found = Found(ino: nat, isLink: bool)

  /** Follows at most `budget` links. */
  function Follow(fs: Names, n: Name, budget: nat): Outcome<Found>
    decreases budget
  {
    if n !in fs then Fail(ENOENT)
    else match fs[n]
      case Object(ino) => Ok(Found(ino, false))
      case Link(_, target) => if budget == 0 then Fail(ELOOP) else Follow(fs, target, budget - 1)
  }

  function Stat(fs: Names, n: Name): Outcome<Found> {
    Follow(fs, n, MAX_LINKS)
  }

  function Lstat(fs: Names, n: Name): Outcome<Found> {
    if n !in fs then Fail(ENOENT) else Ok(Found(fs[n].ino, fs[n].Link?))
  }

  /** The name after i links; it stays put once it is no link. */
  function Nth(fs: Names, n: Name, i: nat): Name
    decreases i
  {
    if i == 0 || n !in fs || !fs[n].Link? then n else Nth(fs, fs[n].target, i - 1)
  }

  predicate IsLink(fs: Names, n: Name) {
    n in fs && fs[n].Link?
  }

  /** The names of the first i + 1 steps. */
  function Trail(fs: Names, n: Name, i: nat): seq<Name> {
    if i == 0 then [n] else Trail(fs, n, i - 1) + [Nth(fs, n, i)]
  }

  lemma {:induction false} NthStep(fs: Names, n: Name, i: nat)
    ensures IsLink(fs, Nth(fs, n, i)) ==> Nth(fs, n, i + 1) == fs[Nth(fs, n, i)].target
    ensures !IsLink(fs, Nth(fs, n, i)) ==> Nth(fs, n, i + 1) == Nth(fs, n, i)
    decreases i
  {
    if i > 0 && IsLink(fs, n) { NthStep(fs, fs[n].target, i - 1); }
  }

  /** What a resolution with a budget answers, without following step by step: look where b
      links lead. */
  lemma {:induction false} FollowSpec(fs: Names, n: Name, b: nat)
    ensures var m := Nth(fs, n, b);
      Follow(fs, n, b) ==
        if m !in fs then Fail(ENOENT) else if fs[m].Link? then Fail(ELOOP) else Ok(Found(fs[m].ino, false))
    decreases b
  {
    if b > 0 && IsLink(fs, n) { FollowSpec(fs, fs[n].target, b - 1); }
  }

  /** stat follows: on a link that resolves it reports what the target's stat reports, never a
      link; a link to a missing name is ENOENT; and stat and lstat agree exactly on names that
      are not links (and never on links). */
  lemma {:induction false} StatFollows(fs: Names, n: Name)
    ensures IsLink(fs, n) && Stat(fs, n).Ok? ==> Stat(fs, n) == Stat(fs, fs[n].target)
    ensures Stat(fs, n).Ok? ==>
      !Stat(fs, n).value.isLink && exists m: Name :: m in fs && fs[m] == Object(Stat(fs, n).value.ino)
    ensures IsLink(fs, n) && fs[n].target !in fs ==> Stat(fs, n) == Fail(ENOENT)
    ensures Stat(fs, n) == Lstat(fs, n) <==> !IsLink(fs, n)
    ensures n in fs && fs[n].Link? ==> Lstat(fs, n) == Ok(Found(fs[n].ino, true))
  {
    FollowSpec(fs, n, MAX_LINKS);
    if IsLink(fs, n) {
      FollowSpec(fs, fs[n].target, MAX_LINKS);
      FollowSpec(fs, fs[n].target, MAX_LINKS - 1);
      NthStep(fs, fs[n].target, MAX_LINKS - 1);
    }
  }

  /** A name that is no link is what it is, to stat and to lstat; a link to one shows it. */
  lemma StatDirect(fs: Names, n: Name)
    requires n in fs
    ensures fs[n].Object? ==> Stat(fs, n) == Lstat(fs, n) == Ok(Found(fs[n].ino, false))
    ensures fs[n].Link? && fs[n].target in fs && fs[fs[n].target].Object? ==>
      Stat(fs, n) == Ok(Found(fs[fs[n].target].ino, false))
  {
  }

  /** lstat of a link is the link itself, wherever it leads: to a file, to nothing, round in a
      circle or too far; lstat fails only for a name that is not there. */
  lemma LstatIsTheLink(fs: Names, n: Name)
    ensures n !in fs ==> Lstat(fs, n) == Fail(ENOENT)
    ensures n in fs && fs[n].Link? ==> Lstat(fs, n) == Ok(Found(fs[n].ino, true))
    ensures n in fs && fs[n].Object? ==> Lstat(fs, n) == Ok(Found(fs[n].ino, false))
  {
  }

  /** No object has the inode of a link. */
  ghost predicate LinksHaveOwnInodes(fs: Names) {
    forall a, b | a in fs && b in fs && fs[a].Link? && fs[b].Object? :: fs[a].ino != fs[b].ino
  }

  /** On every link that resolves, stat and lstat report different inodes, and only lstat a link. */
  lemma {:induction false} LinkAndTargetDiffer(fs: Names, n: Name)
    requires LinksHaveOwnInodes(fs) && n in fs && fs[n].Link? && Stat(fs, n).Ok?
    ensures Lstat(fs, n).Ok? && Lstat(fs, n).value.ino != Stat(fs, n).value.ino
    ensures Lstat(fs, n).value.isLink && !Stat(fs, n).value.isLink
  {
    StatFollows(fs, n);
  }

  /** The chain from n comes back to a name it has already been at. */
  ghost predicate Cycles(fs: Names, n: Name) {
    exists i: nat, j: nat :: i < j && IsLink(fs, Nth(fs, n, i)) && Nth(fs, n, i) == Nth(fs, n, j)
  }

  ghost function Links(fs: Names): set<Name> {
    set n | n in fs && fs[n].Link?
  }

  /** Once at the end of a chain, always there. */
  lemma {:induction false} EndStays(fs: Names, n: Name, i: nat, j: nat)
    requires i <= j && !IsLink(fs, Nth(fs, n, i))
    ensures Nth(fs, n, j) == Nth(fs, n, i)
    decreases j - i
  {
    if i < j {
      NthStep(fs, n, i);
      EndStays(fs, n, i + 1, j);
    }
  }

  /** If two steps are at the same name, so are the steps k further on. */
  lemma {:induction false} SameAfter(fs: Names, n: Name, i: nat, j: nat, k: nat)
    requires Nth(fs, n, i) == Nth(fs, n, j)
    ensures Nth(fs, n, i + k) == Nth(fs, n, j + k)
    decreases k
  {
    if k > 0 {
      SameAfter(fs, n, i, j, k - 1);
      NthStep(fs, n, i + k - 1);
      NthStep(fs, n, j + k - 1);
    }
  }

  /** A chain that cycles never ends. */
  lemma {:induction false} CycleNeverEnds(fs: Names, n: Name, i: nat, j: nat, k: nat)
    requires i < j && IsLink(fs, Nth(fs, n, i)) && Nth(fs, n, i) == Nth(fs, n, j)
    ensures IsLink(fs, Nth(fs, n, k))
    decreases k
  {
    if k < j {
      if !IsLink(fs, Nth(fs, n, k)) {
        EndStays(fs, n, k, j);
        assert false;
      }
    } else {
      CycleNeverEnds(fs, n, i, j, k - (j - i));
      SameAfter(fs, n, i, j, k - j);
    }
  }

  ghost predicate Distinct(s: seq<Name>) {
    forall i, j | 0 <= i < j < |s| :: s[i] != s[j]
  }

  lemma {:induction false} TrailIs(fs: Names, n: Name, i: nat)
    ensures |Trail(fs, n, i)| == i + 1
    ensures forall k: nat | k <= i :: Trail(fs, n, i)[k] == Nth(fs, n, k)
    decreases i
  {
    if i > 0 { TrailIs(fs, n, i - 1); }
  }

  lemma {:induction false} DistinctFits(s: seq<Name>, all: set<Name>)
    requires Distinct(s) && forall x | x in s :: x in all
    ensures |s| <= |all|
    decreases |s|
  {
    if s != [] {
      assert forall x | x in s[1..] :: x in all - {s[0]} by {
        forall x | x in s[1..] ensures x in all && x != s[0] {
          var i :| 0 <= i < |s[1..]| && s[1..][i] == x;
          assert s[i + 1] == x;
        }
      }
      DistinctFits(s[1..], all - {s[0]});
      assert s[0] in all;
    }
  }

  /** A chain of more links than there are links repeats one (pigeonhole). */
  lemma LongChainCycles(fs: Names, n: Name)
    requires forall k: nat | k <= |Links(fs)| :: IsLink(fs, Nth(fs, n, k))
    ensures Cycles(fs, n)
  {
    var t := Trail(fs, n, |Links(fs)|);
    TrailIs(fs, n, |Links(fs)|);
    forall x | x in t ensures x in Links(fs) {
      var i :| 0 <= i < |t| && t[i] == x;
      assert IsLink(fs, Nth(fs, n, i));
    }
    if Distinct(t) {
      DistinctFits(t, Links(fs));
    } else {
      var i, j :| 0 <= i < j < |t| && t[i] == t[j];
      assert IsLink(fs, Nth(fs, n, i)) && Nth(fs, n, i) == Nth(fs, n, j);
    }
  }

  /** stat reports ELOOP exactly when the first 41 names of the chain are all links: always if
      the chain cycles, and otherwise only if it is too long. */
  lemma {:induction false} EloopExactly(fs: Names, n: Name)
    ensures Stat(fs, n) == Fail(ELOOP) <==> forall k: nat | k <= MAX_LINKS :: IsLink(fs, Nth(fs, n, k))
    ensures Cycles(fs, n) ==> Stat(fs, n) == Fail(ELOOP)
  {
    FollowSpec(fs, n, MAX_LINKS);
    if Stat(fs, n) == Fail(ELOOP) {
      forall k: nat | k <= MAX_LINKS ensures IsLink(fs, Nth(fs, n, k)) {
        if !IsLink(fs, Nth(fs, n, k)) {
          EndStays(fs, n, k, MAX_LINKS);
          assert false;
        }
      }
    }
    if Cycles(fs, n) {
      var i: nat, j: nat :| i < j && IsLink(fs, Nth(fs, n, i)) && Nth(fs, n, i) == Nth(fs, n, j);
      CycleNeverEnds(fs, n, i, j, MAX_LINKS);
    }
  }

  /** In a directory tree with at most 40 links the limit never strikes by itself: ELOOP then
      means a cycle, and nothing else.  With more links a straight chain can be refused too. */
  lemma {:induction false} EloopIsCycle(fs: Names, n: Name)
    requires |Links(fs)| <= MAX_LINKS
    ensures Stat(fs, n) == Fail(ELOOP) <==> Cycles(fs, n)
  {
    EloopExactly(fs, n);
    if Stat(fs, n) == Fail(ELOOP) { LongChainCycles(fs, n); }
  }

  /** Two links to each other, as the test makes them. */
  lemma TwoLinkLoop(fs: Names, a: Name, b: Name)
    requires a in fs && b in fs && fs[a].Link? && fs[a].target == b && fs[b].Link? && fs[b].target == a
    ensures Stat(fs, a) == Fail(ELOOP) && Stat(fs, b) == Fail(ELOOP)
  {
    assert Nth(fs, a, 1) == b && Nth(fs, b, 1) == a;
    assert Nth(fs, a, 2) == Nth(fs, b, 1) && Nth(fs, b, 2) == Nth(fs, a, 1);
    assert Nth(fs, a, 0) == Nth(fs, a, 2) && Nth(fs, b, 0) == Nth(fs, b, 2);
    EloopExactly(fs, a);
    EloopExactly(fs, b);
  }

  /* ---- the limit itself ---- */

  function Straight(k: nat): (n: Name)
    ensures |n| == k
  {
    seq(k, _ => 'a')
  }

  function UpTo(n: nat): (s: set<Name>)
    ensures forall k: nat | k <= n :: Straight(k) in s
  {
    if n == 0 then {Straight(0)} else UpTo(n - 1) + {Straight(n)}
  }

  /** n links in a row, each to the next, the last to a regular file. */
  function Chain(n: nat): Names {
    map s | s in UpTo(n) :: if |s| == n then Object(n) else Link(|s|, Straight(|s| + 1))
  }

  lemma {:induction false} ChainNth(n: nat, i: nat, k: nat)
    requires i + k <= n
    ensures Nth(Chain(n), Straight(i), k) == Straight(i + k)
    decreases k
  {
    if k > 0 {
      assert Chain(n)[Straight(i)] == Link(i, Straight(i + 1));
      ChainNth(n, i + 1, k - 1);
    }
  }

  /** A straight chain resolves exactly up to the limit: 40 links do, 41 do not, with no cycle
      anywhere. */
  lemma StraightChain(n: nat)
    ensures Stat(Chain(n), Straight(0)) == if n <= MAX_LINKS then Ok(Found(n, false)) else Fail(ELOOP)
  {
    var fs := Chain(n);
    FollowSpec(fs, Straight(0), MAX_LINKS);
    if n <= MAX_LINKS {
      ChainNth(n, 0, n);
      EndStays(fs, Straight(0), n, MAX_LINKS);
    } else {
      ChainNth(n, 0, MAX_LINKS);
      assert |Straight(MAX_LINKS)| == MAX_LINKS && |Straight(n)| == n;
    }
  }

  lemma StraightDoesNotCycle(n: nat)
    ensures !Cycles(Chain(n), Straight(0))
  {
    var fs := Chain(n);
    if Cycles(fs, Straight(0)) {
      var i: nat, j: nat :| i < j && IsLink(fs, Nth(fs, Straight(0), i)) &&
        Nth(fs, Straight(0), i) == Nth(fs, Straight(0), j);
      CycleNeverEnds(fs, Straight(0), i, j, n);
      ChainNth(n, 0, n);
      assert false;
    }
  }
}
