/** Positional writes by any number of processes to disjoint ranges of one file, in any
    interleaving of pieces down to single bytes. */
module Pwrite {
  import opened Basics
  import opened FlatFile

  datatype Writer = Writer(pos: nat, data: seq<byte>)

  /** One entry of a schedule: a writer and how many bytes it gets to write, if it has them. */
  datatype Turn = Turn(who: nat, bytes: nat)

  datatype State = State(file: seq<byte>, done: seq<nat>)

  ghost predicate Covers(w: Writer, n: nat, k: nat) {
    n <= |w.data| && w.pos <= k < w.pos + n
  }

  ghost predicate Disjoint(ws: seq<Writer>) {
    forall i, j, k: nat | 0 <= i < j < |ws| :: !(Covers(ws[i], |ws[i].data|, k) && Covers(ws[j], |ws[j].data|, k))
  }

  function Next(ws: seq<Writer>, s: State, turn: Turn): State
    requires |s.done| == |ws|
  {
    if turn.who >= |ws| || s.done[turn.who] >= |ws[turn.who].data| then s
    else Advance(ws, s, turn.who, Min(turn.bytes, |ws[turn.who].data| - s.done[turn.who]))
  }

  function Advance(ws: seq<Writer>, s: State, i: nat, n: nat): State
    requires |s.done| == |ws| && i < |ws| && s.done[i] + n <= |ws[i].data|
  {
    State(Overwrite(s.file, ws[i].pos + s.done[i], ws[i].data[s.done[i]..s.done[i] + n]), s.done[i := s.done[i] + n])
  }

  function Run(ws: seq<Writer>, s: State, turns: seq<Turn>): (r: State)
    requires |s.done| == |ws|
    ensures |r.done| == |ws|
  {
    if turns == [] then s else Next(ws, Run(ws, s, turns[..|turns| - 1]), turns[|turns| - 1])
  }

  ghost predicate Complete(ws: seq<Writer>, s: State) {
    |s.done| == |ws| && forall i | 0 <= i < |ws| :: s.done[i] == |ws[i].data|
  }

  /** The file f becomes once each writer has done its first done[i] bytes: it does not say in
      which order. */
  ghost predicate Shape(f: seq<byte>, ws: seq<Writer>, s: State) {
    |s.done| == |ws| && (forall i | 0 <= i < |ws| :: s.done[i] <= |ws[i].data|) &&
    (forall i, k: nat | 0 <= i < |ws| && Covers(ws[i], s.done[i], k) ::
      ByteAt(s.file, k) == ws[i].data[k - ws[i].pos]) &&
    (forall k: nat | Untouched(ws, s, k) :: ByteAt(s.file, k) == ByteAt(f, k)) &&
    |s.file| >= |f| && (forall i | 0 <= i < |ws| && s.done[i] > 0 :: |s.file| >= ws[i].pos + s.done[i]) &&
    (|s.file| == |f| || exists i :: 0 <= i < |ws| && s.done[i] > 0 && |s.file| == ws[i].pos + s.done[i])
  }

  ghost predicate Untouched(ws: seq<Writer>, s: State, k: nat) {
    |s.done| == |ws| && forall i | 0 <= i < |ws| :: !Covers(ws[i], s.done[i], k)
  }

  lemma AdvanceKeepsShape(f: seq<byte>, ws: seq<Writer>, s: State, i: nat, n: nat)
    requires Disjoint(ws) && Shape(f, ws, s) && i < |ws| && s.done[i] + n <= |ws[i].data|
    ensures Shape(f, ws, Advance(ws, s, i, n))
  {
    if n > 0 {
      var t, piece := Advance(ws, s, i, n), ws[i].data[s.done[i]..s.done[i] + n];
      OverwriteBytes(s.file, ws[i].pos + s.done[i], piece);
      forall j, k: nat | 0 <= j < |ws| && Covers(ws[j], t.done[j], k)
        ensures ByteAt(t.file, k) == ws[j].data[k - ws[j].pos]
      {
        if j != i {
          assert Covers(ws[j], |ws[j].data|, k);
          assert !Covers(ws[i], |ws[i].data|, k);
          assert Covers(ws[j], s.done[j], k);
        } else {
          assert k < ws[i].pos + s.done[i] ==> Covers(ws[i], s.done[i], k);
        }
      }
      forall k: nat | Untouched(ws, t, k) ensures ByteAt(t.file, k) == ByteAt(f, k) {
        assert !Covers(ws[i], t.done[i], k);
        assert forall j | 0 <= j < |ws| && j != i :: !Covers(ws[j], t.done[j], k);
        assert Untouched(ws, s, k);
      }
    } else {
      assert Advance(ws, s, i, n).done == s.done;
    }
  }

  /** The shape decides the file. */
  lemma ShapeDecides(f: seq<byte>, ws: seq<Writer>, s: State, t: State)
    requires Shape(f, ws, s) && Shape(f, ws, t) && s.done == t.done
    ensures s == t
  {
    forall k: nat ensures ByteAt(s.file, k) == ByteAt(t.file, k) {
      assert Untouched(ws, s, k) <==> Untouched(ws, t, k);
      if !Untouched(ws, s, k) {
        var i :| 0 <= i < |ws| && Covers(ws[i], s.done[i], k);
      }
    }
    SameBytes(s.file, t.file);
  }

  function Fresh(f: seq<byte>, ws: seq<Writer>): State {
    State(f, seq(|ws|, _ => 0))
  }

  lemma FreshShape(f: seq<byte>, ws: seq<Writer>)
    ensures Shape(f, ws, Fresh(f, ws))
  {
  }

  lemma {:induction false} RunKeepsShape(f: seq<byte>, ws: seq<Writer>, turns: seq<Turn>)
    requires Disjoint(ws)
    ensures Shape(f, ws, Run(ws, Fresh(f, ws), turns))
  {
    hide Shape, Disjoint, Overwrite;
    if turns == [] {
      FreshShape(f, ws);
    } else {
      RunKeepsShape(f, ws, turns[..|turns| - 1]);
      var s, turn := Run(ws, Fresh(f, ws), turns[..|turns| - 1]), turns[|turns| - 1];
      if turn.who < |ws| && s.done[turn.who] < |ws[turn.who].data| {
        AdvanceKeepsShape(f, ws, s, turn.who, Min(turn.bytes, |ws[turn.who].data| - s.done[turn.who]));
      }
    }
  }

  /** The writes made whole, one after another. */
  function InOrder(f: seq<byte>, ws: seq<Writer>): seq<byte> {
    if ws == [] then f
    else Overwrite(InOrder(f, ws[..|ws| - 1]), ws[|ws| - 1].pos, ws[|ws| - 1].data)
  }

  lemma {:induction false} InOrderShape(f: seq<byte>, ws: seq<Writer>, n: nat)
    requires Disjoint(ws) && n <= |ws|
    ensures Shape(f, ws,
      State(InOrder(f, ws[..n]), seq(|ws|, i requires 0 <= i < |ws| => if i < n then |ws[i].data| else 0)))
  {
    hide Shape, Disjoint, Overwrite;
    if n == 0 {
      FreshShape(f, ws);
      assert Fresh(f, ws).done == seq(|ws|, i requires 0 <= i < |ws| => if i < n then |ws[i].data| else 0);
    } else {
      InOrderShape(f, ws, n - 1);
      assert ws[..n][..n - 1] == ws[..n - 1];
      var s := State(InOrder(f, ws[..n - 1]),
        seq(|ws|, i requires 0 <= i < |ws| => if i < n - 1 then |ws[i].data| else 0));
      AdvanceKeepsShape(f, ws, s, n - 1, |ws[n - 1].data|);
      assert ws[n - 1].data[0..|ws[n - 1].data|] == ws[n - 1].data;
      assert Advance(ws, s, n - 1, |ws[n - 1].data|).done ==
        seq(|ws|, i requires 0 <= i < |ws| => if i < n then |ws[i].data| else 0);
    }
  }

  /** Every complete schedule leaves the file the whole writes leave; each message reads back
      intact and every byte none of them covers is as before, zero where the file had none. */
  lemma {:induction false} EveryInterleaving(f: seq<byte>, ws: seq<Writer>, turns: seq<Turn>)
    requires Disjoint(ws) && Complete(ws, Run(ws, Fresh(f, ws), turns))
    ensures Run(ws, Fresh(f, ws), turns).file == InOrder(f, ws)
    ensures forall i | 0 <= i < |ws| :: Slice(InOrder(f, ws), ws[i].pos, |ws[i].data|) == ws[i].data
    ensures forall k: nat | Untouched(ws, Run(ws, Fresh(f, ws), turns), k) :: ByteAt(InOrder(f, ws), k) == ByteAt(f, k)
  {
    hide Disjoint, Overwrite;
    var s := Run(ws, Fresh(f, ws), turns);
    RunKeepsShape(f, ws, turns);
    InOrderShape(f, ws, |ws|);
    assert ws[..|ws|] == ws;
    var t := State(InOrder(f, ws), seq(|ws|, i requires 0 <= i < |ws| => if i < |ws| then |ws[i].data| else 0));
    assert s.done == t.done;
    ShapeDecides(f, ws, s, t);
    forall i | 0 <= i < |ws| ensures Slice(s.file, ws[i].pos, |ws[i].data|) == ws[i].data {
      ReadsBack(f, ws, s, i);
    }
  }

  lemma ReadsBack(f: seq<byte>, ws: seq<Writer>, s: State, i: nat)
    requires Shape(f, ws, s) && i < |ws| && s.done[i] == |ws[i].data|
    ensures Slice(s.file, ws[i].pos, |ws[i].data|) == ws[i].data
  {
    var got := Slice(s.file, ws[i].pos, |ws[i].data|);
    forall k | 0 <= k < |ws[i].data| ensures |got| == |ws[i].data| && got[k] == ws[i].data[k] {
      assert Covers(ws[i], s.done[i], ws[i].pos + k);
      assert ByteAt(s.file, ws[i].pos + k) == ws[i].data[k];
    }
    assert ws[i].data == [] ==> got == [];
  }

  /** Two disjoint positional writes commute. */
  lemma {:induction false} Commute(f: seq<byte>, a: Writer, b: Writer)
    requires Disjoint([a, b])
    ensures Overwrite(Overwrite(f, a.pos, a.data), b.pos, b.data) ==
      Overwrite(Overwrite(f, b.pos, b.data), a.pos, a.data)
  {
    hide Shape, Disjoint, Overwrite;
    var ws := [a, b];
    var s := Fresh(f, ws);
    FreshShape(f, ws);
    AdvanceKeepsShape(f, ws, s, 0, |a.data|);
    AdvanceKeepsShape(f, ws, s, 1, |b.data|);
    var sa, sb := Advance(ws, s, 0, |a.data|), Advance(ws, s, 1, |b.data|);
    AdvanceKeepsShape(f, ws, sa, 1, |b.data|);
    AdvanceKeepsShape(f, ws, sb, 0, |a.data|);
    assert a.data[0..|a.data|] == a.data && b.data[0..|b.data|] == b.data;
    ShapeDecides(f, ws, Advance(ws, sa, 1, |b.data|), Advance(ws, sb, 0, |a.data|));
  }

  /** A turn of n > 0 bytes takes its writer on by n bytes, or by all it has left if that is
      less, and no other writer. */
  lemma TurnAdvances(ws: seq<Writer>, s: State, turn: Turn)
    requires |s.done| == |ws| && turn.who < |ws| && turn.bytes > 0 && s.done[turn.who] < |ws[turn.who].data|
    ensures var (was, len, now) := (s.done[turn.who], |ws[turn.who].data|, Next(ws, s, turn).done);
      && |now| == |ws| && was < now[turn.who] <= len
      && now[turn.who] == (if was + turn.bytes <= len then was + turn.bytes else len)
      && forall j | 0 <= j < |ws| && j != turn.who :: now[j] == s.done[j]
  {
  }

  lemma {:induction false} RunConcat(ws: seq<Writer>, s: State, a: seq<Turn>, b: seq<Turn>)
    requires |s.done| == |ws|
    ensures Run(ws, s, a + b) == Run(ws, Run(ws, s, a), b)
    decreases |b|
  {
    if b == [] {
      assert a + b == a;
    } else {
      assert (a + b)[..|a + b| - 1] == a + b[..|b| - 1];
      RunConcat(ws, s, a, b[..|b| - 1]);
    }
  }

  /** Turns that finish the first n writers. */
  lemma {:induction false} FinishFirst(ws: seq<Writer>, s: State, n: nat) returns (turns: seq<Turn>)
    requires |s.done| == |ws| && n <= |ws| && forall i | 0 <= i < |ws| :: s.done[i] <= |ws[i].data|
    ensures forall i | 0 <= i < |ws| ::
      Run(ws, s, turns).done[i] == if i < n then |ws[i].data| else s.done[i]
    decreases n
  {
    turns := [];
    if n > 0 {
      var before := FinishFirst(ws, s, n - 1);
      turns := before + [Turn(n - 1, |ws[n - 1].data|)];
      assert turns[..|turns| - 1] == before;
    }
  }

  /** Any schedule so far can be completed, and then the file is that of the whole writes. */
  lemma {:induction false} CanFinish(f: seq<byte>, ws: seq<Writer>, turns: seq<Turn>) returns (more: seq<Turn>)
    requires Disjoint(ws)
    ensures Complete(ws, Run(ws, Fresh(f, ws), turns + more))
    ensures Run(ws, Fresh(f, ws), turns + more).file == InOrder(f, ws)
  {
    hide Disjoint, Overwrite;
    RunKeepsShape(f, ws, turns);
    more := FinishFirst(ws, Run(ws, Fresh(f, ws), turns), |ws|);
    RunConcat(ws, Fresh(f, ws), turns, more);
    EveryInterleaving(f, ws, turns + more);
  }

  /** The parent and child of the test, for any messages and any positions that leave them
      apart, on a new file: both read back, and every other byte of it is zero. */
  lemma {:induction false} ParentAndChild(a: Writer, b: Writer, turns: seq<Turn>)
    requires a.data != [] && b.data != [] && a.pos + |a.data| <= b.pos
    requires Complete([a, b], Run([a, b], Fresh([], [a, b]), turns))
    ensures var f := Run([a, b], Fresh([], [a, b]), turns).file;
      && |f| == b.pos + |b.data|
      && f[a.pos..a.pos + |a.data|] == a.data && f[b.pos..] == b.data
      && forall k | 0 <= k < |f| && !(a.pos <= k < a.pos + |a.data|) && k < b.pos :: f[k] == 0
  {
    var ws := [a, b];
    var s := Run(ws, Fresh([], ws), turns);
    assert Disjoint(ws);
    RunKeepsShape([], ws, turns);
    assert s.done[0] == |ws[0].data| && s.done[1] == |ws[1].data|;
    assert |s.file| == b.pos + |b.data|;
    ReadsBack([], ws, s, 0);
    ReadsBack([], ws, s, 1);
    forall k | 0 <= k < |s.file| && !(a.pos <= k < a.pos + |a.data|) && k < b.pos ensures s.file[k] == 0 {
      assert Untouched(ws, s, k);
      assert ByteAt(s.file, k) == ByteAt([], k);
    }
  }
}
