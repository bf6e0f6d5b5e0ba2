/**
  ap_reclaim_child_processes: wait for the children to exit, with growing pauses, and send
  signals to those that do not, as a table of elapsed times says.  Times are microseconds.
*/
module Reclaim {

  datatype Action = DoNothing | SendSigterm | SendSigkill | GiveUp
  datatype Signal = Sigterm | Sigkill
  datatype Note = Note(signal: Signal, at: int)
  datatype Sent = Sent(pid: int, note: Note)
  datatype Row = Row(action: Action, time: int)

  const SECOND := 1_000_000

  const ACTION_TABLE: seq<Row> := [
    Row(DoNothing, 0), Row(SendSigterm, 3 * SECOND), Row(SendSigterm, 5 * SECOND),
    Row(SendSigterm, 7 * SECOND), Row(SendSigkill, 9 * SECOND), Row(GiveUp, 10 * SECOND)]

  // A clock that never goes back and that a sleep advances by at least the time slept.
  // How much later than that the n-th call returns is arbitrary.
  class Clock {
    const late: nat -> nat
    var now: int
    var calls: nat

    constructor (late: nat -> nat)
      ensures this.late == late
    {
      this.late := late;
      now, calls := *, 0;
    }

    // apr_sleep
    method Sleep(t: nat)
      modifies this
      ensures now == old(now) + t + late(old(calls)) && calls == old(calls) + 1
    {
      now := now + t + late(calls);
      calls := calls + 1;
    }

    // apr_time_now
    method Now() returns (t: int)
      modifies this
      ensures t == now == old(now) + late(old(calls)) && calls == old(calls) + 1
    {
      now := now + late(calls);
      calls := calls + 1;
      t := now;
    }
  }

  // The children.  A child that has been waited for is gone; those in `stubborn` never exit,
  // whatever they are sent.
  class Kernel {
    const stubborn: set<int>
    var gone: set<int>
    ghost var log: seq<Sent>

    ghost predicate Valid()
      reads this
    {
      gone !! stubborn
    }

    constructor (stubborn: set<int>)
      ensures Valid() && this.stubborn == stubborn && gone == {} && log == []
    {
      this.stubborn, gone, log := stubborn, {}, [];
    }

    // apr_proc_wait with APR_NOWAIT: is there nothing left to wait for?
    method Wait(pid: int) returns (done: bool)
      requires Valid()
      modifies this
      ensures Valid() && log == old(log)
      ensures gone == if done then old(gone) + {pid} else old(gone)
      ensures pid in old(gone) ==> done
    {
      done := *;
      if pid in stubborn {
        done := false;
      } else if pid in gone {
        done := true;
      }
      if done {
        gone := gone + {pid};
      }
    }

    method Kill(pid: int, signal: Signal, ghost at: int)
      requires Valid()
      modifies this
      ensures Valid() && gone == old(gone) && log == old(log) + [Sent(pid, Note(signal, at))]
    {
      log := log + [Sent(pid, Note(signal, at))];
    }
  }

  // ----- signals

  // What a process has been sent, and when.
  function SignalsTo(log: seq<Sent>, pid: int): seq<Note> {
    if log == [] then []
    else SignalsTo(log[..|log| - 1], pid) + if log[|log| - 1].pid == pid then [log[|log| - 1].note] else []
  }

  lemma SignalsSnoc(log: seq<Sent>, sent: Sent, pid: int)
    ensures SignalsTo(log + [sent], pid) == SignalsTo(log, pid) + if sent.pid == pid then [sent.note] else []
  {
    assert (log + [sent])[..|log|] == log;
  }

  function SignalOf(action: Action, at: int): seq<Note> {
    match action
    case SendSigterm => [Note(Sigterm, at)]
    case SendSigkill => [Note(Sigkill, at)]
    case _ => []
  }

  function Count(pids: seq<int>, pid: int): nat {
    multiset(pids)[pid]
  }

  // The effect of one round on the process `pid` once `visited` has been seen to: a process
  // listed once that is still there has got the signal of the round, and only that.
  ghost predicate Served(before: seq<Sent>, after: seq<Sent>, gone: set<int>, visited: seq<int>, notes: seq<Note>,
      pid: int) {
    pid >= 1 && Count(visited, pid) <= 1 ==>
      SignalsTo(after, pid) == SignalsTo(before, pid) +
        if Count(visited, pid) == 0 || pid in gone then [] else notes
  }

  ghost predicate AllServed(before: seq<Sent>, after: seq<Sent>, gone: set<int>, visited: seq<int>, notes: seq<Note>) {
    forall pid :: Served(before, after, gone, visited, notes, pid)
  }

  // reclaim_one_pid
  method ReclaimOnePid(k: Kernel, pid: int, action: Action, ghost at: int, ghost before: seq<Sent>,
      ghost visited: seq<int>)
    returns (done: bool)
    requires k.Valid() && AllServed(before, k.log, k.gone, visited, SignalOf(action, at))
    modifies k
    ensures k.Valid() && AllServed(before, k.log, k.gone, visited + [pid], SignalOf(action, at))
    ensures done <==> pid < 1 || pid in k.gone
    ensures old(k.gone) <= k.gone <= old(k.gone) + {pid}
  {
    ghost var notes := SignalOf(action, at);
    if pid < 1 {
      VisitQuiet(before, k.log, k.gone, k.gone, visited, notes, pid);
      return true;
    }
    ghost var gone := k.gone;
    done := k.Wait(pid);
    if done {
      VisitQuiet(before, k.log, gone, k.gone, visited, notes, pid);
      return;
    }
    VisitSignalled(before, k.log, k.gone, visited, notes, pid);
    match action
    case SendSigterm => k.Kill(pid, Sigterm, at);
    case SendSigkill => k.Kill(pid, Sigkill, at);
    case _ =>
  }

  lemma NoneServed(log: seq<Sent>, gone: set<int>, notes: seq<Note>)
    ensures AllServed(log, log, gone, [], notes)
  {
    forall pid
      ensures Served(log, log, gone, [], notes, pid)
    {
      assert SignalsTo(log, pid) + [] == SignalsTo(log, pid);
    }
  }

  lemma CountSnoc(pids: seq<int>, p: int, q: int)
    ensures Count(pids + [p], q) == Count(pids, q) + if p == q then 1 else 0
  {
  }

  lemma VisitQuiet(before: seq<Sent>, log: seq<Sent>, gone: set<int>, gone': set<int>, visited: seq<int>,
      notes: seq<Note>, p: int)
    requires AllServed(before, log, gone, visited, notes)
    requires gone <= gone' <= gone + {p} && (p >= 1 ==> p in gone')
    ensures AllServed(before, log, gone', visited + [p], notes)
  {
    forall q
      ensures Served(before, log, gone', visited + [p], notes, q)
    {
      CountSnoc(visited, p, q);
      assert Served(before, log, gone, visited, notes, q);
    }
  }

  function Logged(log: seq<Sent>, p: int, notes: seq<Note>): seq<Sent> {
    if notes == [] then log else log + [Sent(p, notes[0])]
  }

  lemma VisitSignalled(before: seq<Sent>, log: seq<Sent>, gone: set<int>, visited: seq<int>, notes: seq<Note>, p: int)
    requires AllServed(before, log, gone, visited, notes) && p !in gone && |notes| <= 1
    ensures AllServed(before, Logged(log, p, notes), gone, visited + [p], notes)
  {
    hide Served, Logged;
    forall q
      ensures Served(before, Logged(log, p, notes), gone, visited + [p], notes, q)
    {
      VisitOne(before, log, gone, visited, notes, p, q);
    }
  }

  lemma VisitOne(before: seq<Sent>, log: seq<Sent>, gone: set<int>, visited: seq<int>, notes: seq<Note>, p: int, q: int)
    requires Served(before, log, gone, visited, notes, q) && p !in gone && |notes| <= 1
    ensures Served(before, Logged(log, p, notes), gone, visited + [p], notes, q)
  {
    hide Count, SignalsTo;
    CountSnoc(visited, p, q);
    assert SignalsTo(before, q) + [] == SignalsTo(before, q);
    if notes != [] {
      assert notes == [notes[0]];
      SignalsSnoc(log, Sent(p, notes[0]), q);
    }
  }

  // ----- one round

  // The loops over the scoreboard and over the extra processes.
  method Round(board: array<int>, extras: seq<int>, k: Kernel, action: Action, ghost at: int)
    returns (notDeadYet: nat)
    requires k.Valid()
    modifies board, k
    ensures k.Valid() && old(k.gone) <= k.gone
    ensures AllServed(old(k.log), k.log, k.gone, old(board[..]) + extras, SignalOf(action, at))
    ensures forall i :: 0 <= i < board.Length ==>
              board[i] == old(board[i]) || (board[i] == 0 && (old(board[i]) < 1 || old(board[i]) in k.gone))
    ensures notDeadYet == 0 ==>
              && (forall i :: 0 <= i < board.Length ==> board[i] == 0)
              && (forall j :: 0 <= j < |extras| ==> extras[j] < 1 || extras[j] in k.gone)
    ensures notDeadYet > 0 ==>
              || (exists i :: 0 <= i < board.Length && board[i] >= 1)
              || (exists j :: 0 <= j < |extras| && extras[j] >= 1)
  {
    hide SignalsTo, Served, AllServed, Count;
    ghost var notes := SignalOf(action, at);
    notDeadYet := 0;
    NoneServed(k.log, k.gone, notes);
    ghost var before, listed := k.log, board[..];
    var i := 0;
    while i < board.Length
      invariant i <= board.Length && k.Valid() && old(k.gone) <= k.gone
      invariant AllServed(before, k.log, k.gone, listed[..i], notes)
      invariant forall j :: i <= j < board.Length ==> board[j] == listed[j]
      invariant forall j :: 0 <= j < i ==>
                  board[j] == listed[j] || (board[j] == 0 && (listed[j] < 1 || listed[j] in k.gone))
      invariant notDeadYet == 0 ==> forall j :: 0 <= j < i ==> board[j] == 0
      invariant notDeadYet > 0 ==> exists j :: 0 <= j < i && board[j] >= 1
    {
      var pid := board[i];
      assert listed[..i + 1] == listed[..i] + [pid];
      if pid == 0 {
        VisitQuiet(before, k.log, k.gone, k.gone, listed[..i], notes, pid);
      } else {
        var done := ReclaimOnePid(k, pid, action, at, before, listed[..i]);
        if done {
          board[i] := 0;
        } else {
          notDeadYet := notDeadYet + 1;
        }
      }
      i := i + 1;
    }
    assert listed[..i] == listed;
    var e := 0;
    ghost var onBoard, now, gone := notDeadYet, board[..], k.gone;
    assert listed + extras[..0] == listed;
    while e < |extras|
      invariant e <= |extras| && k.Valid() && old(k.gone) <= k.gone && gone <= k.gone
      invariant notDeadYet >= onBoard && board[..] == now
      invariant AllServed(before, k.log, k.gone, listed + extras[..e], notes)
      invariant notDeadYet == 0 ==> forall j :: 0 <= j < e ==> extras[j] < 1 || extras[j] in k.gone
      invariant notDeadYet > onBoard ==> exists j :: 0 <= j < e && extras[j] >= 1
    {
      assert listed + extras[..e + 1] == (listed + extras[..e]) + [extras[e]];
      var done := ReclaimOnePid(k, extras[e], action, at, before, listed + extras[..e]);
      if !done {
        notDeadYet := notDeadYet + 1;
      }
      e := e + 1;
    }
    assert extras[..e] == extras;
    assert forall i :: 0 <= i < board.Length ==> board[i] == now[i];
  }

  // ----- the rounds

  // The pause before round n, and the time that has passed when it begins, at least.
  function WaitTime(n: nat): nat {
    if n == 0 then 1024 * 16
    else if WaitTime(n - 1) * 4 > SECOND then SECOND else WaitTime(n - 1) * 4
  }

  function Elapsed(n: nat): nat {
    if n == 0 then 0 else Elapsed(n - 1) + WaitTime(n - 1)
  }

  lemma {:induction false} PausesGrow(n: nat)
    ensures n >= 3 ==> WaitTime(n) == SECOND && Elapsed(n) == 344_064 + (n - 3) * SECOND
    ensures n == 2 ==> WaitTime(n) == 262_144 && Elapsed(n) == 81_920
  {
    if n == 1 {
      assert WaitTime(0) == 16_384;
    } else if n == 2 {
      assert WaitTime(0) == 16_384 && WaitTime(1) == 65_536 && Elapsed(1) == 16_384;
    } else if n > 2 {
      PausesGrow(n - 1);
    }
  }

  lemma PausesBegin(start: int)
    ensures InTime(start, []) && SignalsOf([]) == [] && NextRow([]) == 1
    ensures WaitTime(0) == 1024 * 16 && Elapsed(0) == 0
    ensures forall n: nat :: WaitTime(n + 1) == (if WaitTime(n) * 4 > SECOND then SECOND else WaitTime(n) * 4)
    ensures forall n: nat :: Elapsed(n + 1) == Elapsed(n) + WaitTime(n)
  {
  }

  // How far the table has been followed after n rounds, at least.
  function Due(n: nat): nat {
    if n < 6 then 1 else if n < 8 then 2 else if n < 10 then 3 else if n < 12 then 4 else if n < 13 then 5 else 6
  }

  // The round after n others takes the next action if no more than Due(n) is behind it.
  lemma DueInTime(n: nat)
    requires n < 13 && Due(n + 1) > Due(n)
    ensures ACTION_TABLE[Due(n)].time <= Elapsed(n + 1)
  {
    PausesGrow(n + 1);
  }

  // Twelve pauses do not reach the last row of the table, thirteen do.
  lemma TwelveRoundsAreNotEnough()
    ensures Elapsed(12) < ACTION_TABLE[5].time <= Elapsed(13)
  {
    PausesGrow(12);
    PausesGrow(13);
  }

  type RowNo = i: nat | i < |ACTION_TABLE|

  // A round: the row of the table it takes, and when it begins.
  datatype Turn = Turn(row: RowNo, at: int)

  function NotesOf(turn: Turn): seq<Note> {
    SignalOf(ACTION_TABLE[turn.row].action, turn.at)
  }

  // All signals of some rounds, for a process that outlives them.
  function SignalsOf(turns: seq<Turn>): seq<Note> {
    if turns == [] then [] else SignalsOf(turns[..|turns| - 1]) + NotesOf(turns[|turns| - 1])
  }

  // The row after the last one that was taken.
  function NextRow(turns: seq<Turn>): nat {
    if turns == [] then 1
    else NextRow(turns[..|turns| - 1]) + if turns[|turns| - 1].row == 0 then 0 else 1
  }

  // A round takes the next row of the table when that is due, and is quiet otherwise.
  ghost predicate InTime(start: int, turns: seq<Turn>) {
    forall k :: 0 <= k < |turns| ==> OneInTime(start, turns[..k], turns[k])
  }

  ghost predicate OneInTime(start: int, before: seq<Turn>, turn: Turn) {
    var next := NextRow(before);
    next <= 5 && turn.row == if ACTION_TABLE[next].time <= turn.at - start then next else 0
  }

  lemma InTimeOn(start: int, turns: seq<Turn>, turn: Turn)
    requires InTime(start, turns) && OneInTime(start, turns, turn)
    ensures InTime(start, turns + [turn]) && SignalsOf(turns + [turn]) == SignalsOf(turns) + NotesOf(turn)
    ensures NextRow(turns + [turn]) == NextRow(turns) + if turn.row == 0 then 0 else 1
  {
    var longer := turns + [turn];
    assert longer[..|turns|] == turns;
    forall k | 0 <= k < |longer|
      ensures OneInTime(start, longer[..k], longer[k])
    {
      if k < |turns| {
        assert longer[..k] == turns[..k] && OneInTime(start, turns[..k], turns[k]);
      }
    }
  }

  // The four signals, and when they are due.
  const FULL: seq<Signal> := [Sigterm, Sigterm, Sigterm, Sigkill]

  const FULL_TIMES: seq<int> := [3_000_000, 5_000_000, 7_000_000, 9_000_000]

  // Three times SIGTERM and then SIGKILL, none of them early: no SIGTERM before 3, 5 and 7
  // seconds and no SIGKILL before 9.
  ghost predicate Punctual(start: int, notes: seq<Note>) {
    && |notes| <= 4
    && forall i :: 0 <= i < |notes| ==> notes[i].signal == FULL[i] && notes[i].at >= start + FULL_TIMES[i]
  }

  // With a clock that is never late each signal comes in the first round after its time: the
  // pauses are 16, 64 and 256 times 1024 microseconds, and then a second each.
  function Expected(start: int, n: nat): seq<Note> {
    var all := [Note(Sigterm, start + 3_344_064), Note(Sigterm, start + 5_344_064),
                Note(Sigterm, start + 7_344_064), Note(Sigkill, start + 9_344_064)];
    if n < 6 then [] else if n < 8 then all[..1] else if n < 10 then all[..2] else if n < 12 then all[..3] else all
  }

  lemma {:induction false} ExactSchedule(start: int, turns: seq<Turn>)
    requires InTime(start, turns) && |turns| <= 13
    requires forall k :: 0 <= k < |turns| ==> turns[k].at == start + Elapsed(k + 1)
    ensures SignalsOf(turns) == Expected(start, |turns|) && NextRow(turns) == Due(|turns|)
    decreases |turns|
  {
    hide Elapsed, OneInTime, Expected, Due;
    if turns == [] {
      NoneExpected(start);
    } else {
      var n := |turns| - 1;
      InTimeBefore(start, turns);
      ExactSchedule(start, turns[..n]);
      assert OneInTime(start, turns[..n], turns[n]);
      NextExpected(start, turns[..n], turns[n], n);
    }
  }

  lemma NoneExpected(start: int)
    ensures Expected(start, 0) == [] && Due(0) == 1
  {
  }

  lemma NextExpected(start: int, before: seq<Turn>, turn: Turn, n: nat)
    requires n < 13 && OneInTime(start, before, turn) && NextRow(before) == Due(n) && turn.at == start + Elapsed(n + 1)
    ensures Expected(start, n) + NotesOf(turn) == Expected(start, n + 1)
    ensures Due(n) + (if turn.row == 0 then 0 else 1) == Due(n + 1)
  {
    PausesGrow(n + 1);
    FirstPauses();
  }

  lemma FirstPauses()
    ensures Elapsed(1) == 16_384 && Elapsed(2) == 81_920
  {
    assert WaitTime(0) == 16_384 && WaitTime(1) == 65_536;
    assert Elapsed(1) == Elapsed(0) + WaitTime(0);
  }

  lemma InTimeBefore(start: int, turns: seq<Turn>)
    requires InTime(start, turns) && turns != []
    ensures InTime(start, turns[..|turns| - 1])
  {
    hide OneInTime;
    var n := |turns| - 1;
    forall k | 0 <= k < n
      ensures OneInTime(start, turns[..n][..k], turns[..n][k])
    {
      assert turns[..n][..k] == turns[..k] && OneInTime(start, turns[..k], turns[k]);
    }
  }

  lemma NonePunctual(start: int)
    ensures Punctual(start, [])
  {
  }

  // The signal of the next row, when that row is due.
  lemma OneMorePunctual(start: int, notes: seq<Note>, next: nat, turn: Turn)
    requires Punctual(start, notes) && 1 <= next <= 5 && |notes| == next - 1
    requires turn.row == if ACTION_TABLE[next].time <= turn.at - start then next else 0
    ensures Punctual(start, notes + NotesOf(turn))
    ensures |notes + NotesOf(turn)| == if turn.row == 0 || next == 5 then |notes| else next
  {
  }

  lemma {:induction false} SignalsArePunctual(start: int, turns: seq<Turn>)
    requires InTime(start, turns)
    ensures 1 <= NextRow(turns) <= 6
    ensures Punctual(start, SignalsOf(turns))
    ensures |SignalsOf(turns)| == if NextRow(turns) <= 5 then NextRow(turns) - 1 else 4
  {
    hide Punctual;
    if turns == [] {
      NonePunctual(start);
    } else {
      var n := |turns| - 1;
      InTimeBefore(start, turns);
      SignalsArePunctual(start, turns[..n]);
      assert OneInTime(start, turns[..n], turns[n]);
      OneMorePunctual(start, SignalsOf(turns[..n]), NextRow(turns[..n]), turns[n]);
    }
  }

  // What a process that is listed once has been sent since the beginning.
  ghost predicate OnSchedule(before: seq<Sent>, log: seq<Sent>, pids: seq<int>, gone: set<int>, sent: seq<Note>,
      pid: int) {
    if pid in gone then
      Count(pids, pid) <= 1
      && exists n :: 0 <= n <= |sent| && SignalsTo(log, pid) == SignalsTo(before, pid) + sent[..n]
    else
      Count(pids, pid) == 1 && SignalsTo(log, pid) == SignalsTo(before, pid) + sent
  }

  ghost predicate AllOnSchedule(before: seq<Sent>, log: seq<Sent>, first: seq<int>, pids: seq<int>, gone: set<int>,
      sent: seq<Note>) {
    forall pid :: pid >= 1 && Count(first, pid) == 1 ==> OnSchedule(before, log, pids, gone, sent, pid)
  }

  // The scoreboard drops children that are gone, and no others.
  ghost predicate Dropped(pids: seq<int>, pids': seq<int>, gone: set<int>) {
    |pids'| == |pids|
    && forall i :: 0 <= i < |pids| ==> pids'[i] == pids[i] || (pids'[i] == 0 && (pids[i] < 1 || pids[i] in gone))
  }

  lemma {:induction false} DroppedCount(pids: seq<int>, pids': seq<int>, gone: set<int>, pid: int)
    requires Dropped(pids, pids', gone) && pid >= 1
    ensures Count(pids', pid) <= Count(pids, pid)
    ensures pid !in gone ==> Count(pids', pid) == Count(pids, pid)
  {
    if pids != [] {
      var n := |pids| - 1;
      DroppedCount(pids[..n], pids'[..n], gone, pid);
      assert pids == pids[..n] + [pids[n]] && pids' == pids'[..n] + [pids'[n]];
      CountSnoc(pids[..n], pids[n], pid);
      CountSnoc(pids'[..n], pids'[n], pid);
    }
  }

  lemma RoundKeepsSchedule(before: seq<Sent>, log: seq<Sent>, log': seq<Sent>, first: seq<int>, pids: seq<int>,
      pids': seq<int>, gone: set<int>, gone': set<int>, sent: seq<Note>, notes: seq<Note>)
    requires AllOnSchedule(before, log, first, pids, gone, sent) && AllServed(log, log', gone', pids, notes)
    requires gone <= gone' && Dropped(pids, pids', gone')
    ensures AllOnSchedule(before, log', first, pids', gone', sent + notes)
  {
    hide OnSchedule, Served, Count, Dropped;
    forall pid | pid >= 1 && Count(first, pid) == 1
      ensures OnSchedule(before, log', pids', gone', sent + notes, pid)
    {
      DroppedCount(pids, pids', gone', pid);
      OneKeepsSchedule(before, log, log', pids, pids', gone, gone', sent, notes, pid);
    }
  }

  lemma OneKeepsSchedule(before: seq<Sent>, log: seq<Sent>, log': seq<Sent>, pids: seq<int>, pids': seq<int>,
      gone: set<int>, gone': set<int>, sent: seq<Note>, notes: seq<Note>, pid: int)
    requires OnSchedule(before, log, pids, gone, sent, pid) && Served(log, log', gone', pids, notes, pid)
    requires gone <= gone' && pid >= 1
    requires Count(pids', pid) <= Count(pids, pid) && (pid !in gone' ==> Count(pids', pid) == Count(pids, pid))
    ensures OnSchedule(before, log', pids', gone', sent + notes, pid)
  {
    hide SignalsTo, Count;
    if pid in gone' {
      assert SignalsTo(log', pid) == SignalsTo(log, pid) + [];
      var n: nat := if pid in gone then
        var m: nat :| m <= |sent| && SignalsTo(log, pid) == SignalsTo(before, pid) + sent[..m]; m else |sent|;
      assert (sent + notes)[..n] == sent[..n];
      assert sent[..|sent|] == sent;
    } else {
      assert SignalsTo(before, pid) + (sent + notes) == (SignalsTo(before, pid) + sent) + notes;
    }
  }

  // A child that is never reaped keeps the loop going.
  lemma StillListed(board: seq<int>, extras: seq<int>, gone: set<int>, pid: int)
    requires pid >= 1 && pid !in gone && Count(board + extras, pid) == 1
    ensures (exists i :: 0 <= i < |board| && board[i] != 0)
            || (exists j :: 0 <= j < |extras| && extras[j] >= 1 && extras[j] !in gone)
  {
    assert pid in board + extras;
  }

  // What the clock shows after n pauses, or more if it runs late.
  ghost predicate Late(clock: Clock, start: int, n: nat)
    reads clock
  {
    && clock.now >= start + Elapsed(n)
    && (Exact(clock) ==> clock.now == start + Elapsed(n))
  }

  ghost predicate Exact(clock: Clock) {
    forall n :: clock.late(n) == 0
  }

  // Round k begins after k + 1 pauses.
  ghost predicate Paced(clock: Clock, start: int, turns: seq<Turn>) {
    forall k :: 0 <= k < |turns| ==>
      turns[k].at >= start + Elapsed(k + 1) && (Exact(clock) ==> turns[k].at == start + Elapsed(k + 1))
  }

  // ap_reclaim_child_processes
  method ReclaimChildProcesses(board: array<int>, extras: seq<int>, k: Kernel, clock: Clock)
    returns (ghost start: int, ghost turns: seq<Turn>)
    requires k.Valid() && k.gone == {}
    modifies board, k, clock
    ensures k.Valid() && 1 <= |turns| <= 13 && start >= old(clock.now)
    ensures InTime(start, turns) && Paced(clock, start, turns)
    ensures Punctual(start, SignalsOf(turns))
    ensures AllOnSchedule(old(k.log), k.log, old(board[..]) + extras, board[..] + extras, k.gone, SignalsOf(turns))
    ensures if turns[|turns| - 1].row == 5 then |SignalsOf(turns)| == 4
            else (forall i :: 0 <= i < board.Length ==> board[i] == 0)
                 && (forall j :: 0 <= j < |extras| ==> extras[j] < 1 || extras[j] in k.gone)
  {
    hide SignalsTo, OnSchedule, Served, AllOnSchedule, WaitTime, Elapsed, SignalsOf, NextRow, InTime;
    var waittime, nextAction := 1024 * 16, 1;
    var starttime := clock.Now();
    var notDeadYet, curAction := 1, 0;
    start, turns := starttime, [];
    PausesBegin(start);
    ghost var before, first := k.log, board[..] + extras;
    AtFirst(before, first);
    while true
      invariant |turns| < 13 && waittime == WaitTime(|turns|) && Late(clock, start, |turns|)
      invariant Due(|turns|) <= nextAction == NextRow(turns) <= 5
      invariant InTime(start, turns) && Paced(clock, start, turns)
      invariant k.Valid() && AllOnSchedule(before, k.log, first, board[..] + extras, k.gone, SignalsOf(turns))
      decreases 13 - |turns|
    {
      clock.Sleep(waittime);
      waittime := waittime * 4;
      if waittime > SECOND {
        waittime := SECOND;
      }
      var now := clock.Now();
      if Due(|turns| + 1) > Due(|turns|) {
        DueInTime(|turns|);
      }
      if ACTION_TABLE[nextAction].time <= now - starttime {
        curAction := nextAction;
        nextAction := nextAction + 1;
      } else {
        curAction := 0;
      }
      notDeadYet := RoundOnSchedule(board, extras, k, ACTION_TABLE[curAction].action, now, before, first,
          SignalsOf(turns));
      ghost var turn := Turn(curAction, now);
      InTimeOn(start, turns, turn);
      turns := turns + [turn];
      if !(notDeadYet > 0 && ACTION_TABLE[curAction].action != GiveUp) {
        break;
      }
    }
    SignalsArePunctual(start, turns);
  }

  method RoundOnSchedule(board: array<int>, extras: seq<int>, k: Kernel, action: Action, ghost at: int,
      ghost before: seq<Sent>, ghost first: seq<int>, ghost sent: seq<Note>)
    returns (notDeadYet: nat)
    requires k.Valid() && AllOnSchedule(before, k.log, first, board[..] + extras, k.gone, sent)
    modifies board, k
    ensures k.Valid()
    ensures AllOnSchedule(before, k.log, first, board[..] + extras, k.gone, sent + SignalOf(action, at))
    ensures notDeadYet == 0 ==>
              && (forall i :: 0 <= i < board.Length ==> board[i] == 0)
              && (forall j :: 0 <= j < |extras| ==> extras[j] < 1 || extras[j] in k.gone)
  {
    notDeadYet := Round(board, extras, k, action, at);
    RoundKeepsSchedule(before, old(k.log), k.log, first, old(board[..]) + extras, board[..] + extras, old(k.gone),
        k.gone, sent, SignalOf(action, at));
  }

  lemma AtFirst(log: seq<Sent>, pids: seq<int>)
    ensures AllOnSchedule(log, log, pids, pids, {}, [])
  {
    forall pid | pid >= 1 && Count(pids, pid) == 1
      ensures OnSchedule(log, log, pids, {}, [], pid)
    {
      assert SignalsTo(log, pid) + [] == SignalsTo(log, pid);
    }
  }

  // A child that stays alive gets exactly three SIGTERMs and a SIGKILL, none of them early,
  // and is given up on.  With a clock that is never late that takes all of the 13 rounds.
  method ReclaimStubborn(board: array<int>, extras: seq<int>, k: Kernel, clock: Clock, ghost pid: int)
    returns (ghost start: int, ghost turns: seq<Turn>, ghost notes: seq<Note>)
    requires k.Valid() && k.gone == {} && pid in k.stubborn && pid >= 1 && Count(board[..] + extras, pid) == 1
    modifies board, k, clock
    ensures 1 <= |turns| <= 13 && ACTION_TABLE[turns[|turns| - 1].row].action == GiveUp
    ensures SignalsTo(k.log, pid) == SignalsTo(old(k.log), pid) + notes && |notes| == 4 && Punctual(start, notes)
    ensures start >= old(clock.now) && (Exact(clock) ==> |turns| == 13 && notes == Expected(start, 13))
  {
    start, turns := ReclaimChildProcesses(board, extras, k, clock);
    notes := SignalsOf(turns);
    assert OnSchedule(old(k.log), k.log, board[..] + extras, k.gone, notes, pid);
    StillListed(board[..], extras, k.gone, pid);
    if Exact(clock) {
      GivesUpLate(clock, start, turns);
      ExactSchedule(start, turns);
    }
  }

  // The last row of the table is not reached before the thirteenth round.
  lemma GivesUpLate(clock: Clock, start: int, turns: seq<Turn>)
    requires InTime(start, turns) && Paced(clock, start, turns) && Exact(clock)
    requires 1 <= |turns| <= 13 && turns[|turns| - 1].row == 5
    ensures |turns| == 13
  {
    var n := |turns| - 1;
    assert OneInTime(start, turns[..n], turns[n]);
    TwelveRoundsAreNotEnough();
    if n < 12 {
      ElapsedGrows(n + 1, 12);
    }
  }

  lemma {:induction false} ElapsedGrows(m: nat, n: nat)
    requires m <= n
    ensures Elapsed(m) <= Elapsed(n)
  {
    if m < n {
      ElapsedGrows(m, n - 1);
    }
  }

  // So the bound of 13 rounds is attained: one child that stays, under an exact clock.
  method ThirteenRounds() returns (ghost turns: seq<Turn>)
    ensures |turns| == 13
  {
    var clock := new Clock(n => 0);
    var k := new Kernel({7});
    var board := new int[][7];
    assert board[..] + [] == [7];
    ghost var start, notes;
    start, turns, notes := ReclaimStubborn(board, [], k, clock, 7);
  }
}
