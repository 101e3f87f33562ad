// The transfer with a stream that brings a request in pieces: the sender reads the count without
// waiting and then waits for the ids.
module Pieces {
  import opened Arithmetic
  import opened BlockWindow
  import opened BlockReceiver
  import opened TailPadding
  import opened RequestExactness
  import opened BlockSender
  import opened Transfer
  import opened PaddedReceiver
  import opened AnyTimer
  import opened Completion

  // The first arrived words of the stream have come to the sender. It is blocked once it has read a
  // count whose ids have not all come.
  datatype Piecewise = Piecewise(y: System, arrived: nat, blocked: bool)

  datatype Move = Arrive(words: nat) | Take(step: Step)

  // free: the timer may run out at any time.
  predicate Permitted(free: bool, c: Config, y: System, step: Step) {
    if free then MayStep(c, y, step) else Enabled(c, y, step)
  }

  predicate CanMove(free: bool, c: Config, p: Piecewise, move: Move) {
    match move
    case Arrive(words) => p.arrived + words <= |p.y.wire|
    case Take(step) =>
      && Permitted(free, c, p.y, step)
      && (step.ReadStream? ==> p.arrived > 0) && (step.SendBlock? || step.TakeCompletion? ==> !p.blocked)
  }

  function Read(c: Config, p: Piecewise): Piecewise
    requires p.arrived <= |p.y.wire|
  {
    if p.y.s.headers == [] then p.(y := p.y.(failed := true))
    else
      match ReadingOf(p.y.s, c.blockSize, p.y.wire[..p.arrived])
      case Waiting => p.(blocked := true)
      case Failed => p.(y := p.y.(failed := true))
      case Read(s, rest) =>
        Piecewise(p.y.(s := s, wire := rest + p.y.wire[p.arrived..], read := p.y.read + 1), |rest|, false)
  }

  function Moved(c: Config, p: Piecewise, move: Move): Piecewise
    requires p.arrived <= |p.y.wire|
  {
    match move
    case Arrive(words) => p.(arrived := p.arrived + words)
    case Take(step) => if step.ReadStream? then Read(c, p) else p.(y := Do(c, p.y, step))
  }

  predicate IsPieceRun(free: bool, c: Config, p: Piecewise, moves: seq<Move>)
    decreases |moves|
  {
    p.arrived <= |p.y.wire| &&
    (moves == [] || (CanMove(free, c, p, moves[0]) && IsPieceRun(free, c, Moved(c, p, moves[0]), moves[1..])))
  }

  function AfterMoves(free: bool, c: Config, p: Piecewise, moves: seq<Move>): Piecewise
    requires IsPieceRun(free, c, p, moves)
    decreases |moves|
  {
    if moves == [] then p else AfterMoves(free, c, Moved(c, p, moves[0]), moves[1..])
  }

  // A read that has to wait changes nothing.
  predicate Waits(c: Config, p: Piecewise)
    requires p.arrived <= |p.y.wire|
  {
    p.y.s.headers != [] && ReadingOf(p.y.s, c.blockSize, p.y.wire[..p.arrived]).Waiting?
  }

  // The same run with a stream that brings requests whole.
  function Whole(free: bool, c: Config, p: Piecewise, moves: seq<Move>): seq<Step>
    requires IsPieceRun(free, c, p, moves)
    decreases |moves|
  {
    if moves == [] then []
    else
      var rest := Whole(free, c, Moved(c, p, moves[0]), moves[1..]);
      if moves[0].Arrive? || (moves[0].step.ReadStream? && Waits(c, p)) then rest else [moves[0].step] + rest
  }

  // What is read of a part of the stream is read of the whole.
  lemma ReadOfPrefix(s: Sender, blockSize: nat, wire: seq<nat>, k: nat)
    requires s.headers != [] && k <= |wire|
    ensures match ReadingOf(s, blockSize, wire[..k])
            case Waiting => true
            case Failed => ReadingOf(s, blockSize, wire).Failed?
            case Read(t, rest) => ReadingOf(s, blockSize, wire) == BlockSender.Read(t, rest + wire[k..])
  {
    if k > 0 {
      var n := wire[0];
      assert wire[..k][0] == n && wire[1..] == wire[..k][1..] + wire[k..];
      if 1 + n <= k {
        assert wire[..k][1..1 + n] == wire[1..1 + n];
        assert wire[1 + n..] == wire[..k][1 + n..] + wire[k..];
      }
    }
  }

  lemma MoveIsStep(free: bool, c: Config, p: Piecewise, move: Move)
    requires p.arrived <= |p.y.wire| && CanMove(free, c, p, move)
    ensures var q := Moved(c, p, move).y;
            if move.Arrive? || (move.step.ReadStream? && Waits(c, p)) then q == p.y else q == Do(c, p.y, move.step)
  {
    if move == Take(ReadStream) && p.y.s.headers != [] {
      ReadOfPrefix(p.y.s, c.blockSize, p.y.wire, p.arrived);
    }
  }

  ghost predicate IsWholeRun(free: bool, c: Config, y: System, steps: seq<Step>) {
    if free then IsAnyRun(c, y, steps) else IsRun(c, y, steps)
  }

  // Refinement: every run with pieces is, but for the waiting, a run with whole requests.
  lemma {:induction false} PiecesRefine(free: bool, c: Config, p: Piecewise, moves: seq<Move>)
    requires IsPieceRun(free, c, p, moves)
    ensures var steps := Whole(free, c, p, moves);
            IsWholeRun(free, c, p.y, steps) && AfterMoves(free, c, p, moves).y == After(c, p.y, steps)
    decreases |moves|
  {
    if moves == [] {
    } else {
      var q := Moved(c, p, moves[0]);
      MoveIsStep(free, c, p, moves[0]);
      PiecesRefine(free, c, q, moves[1..]);
      if moves[0].Take? && !(moves[0].step.ReadStream? && Waits(c, p)) {
        WholeFirst(free, c, p.y, moves[0].step, Whole(free, c, q, moves[1..]));
      }
    }
  }

  lemma WholeFirst(free: bool, c: Config, y: System, step: Step, rest: seq<Step>)
    requires Permitted(free, c, y, step) && IsWholeRun(free, c, Do(c, y, step), rest)
    ensures IsWholeRun(free, c, y, [step] + rest) && After(c, y, [step] + rest) == After(c, Do(c, y, step), rest)
  {
    if free { AnyStepFirst(c, y, step, rest); } else { StepFirst(c, y, step, rest); }
  }

  // ---------------------------------------------------------------- the theorems, over every run with pieces

  lemma PiecesDeliver(c: Config, y: System, moves: seq<Move>)
    requires Start(c, y) && IsPieceRun(false, c, Piecewise(y, 0, false), moves)
    ensures var z := AfterMoves(false, c, Piecewise(y, 0, false), moves).y;
            && !z.failed && (z.s.finished ==> z.r.w.num == c.n && forall i: nat :: i < c.n ==> i in z.got)
            && |z.at| == |z.asked| && forall j :: 0 <= j < |z.asked| ==> z.asked[j] == Missing(0, c.n, z.at[j])
  {
    PiecesRefine(false, c, Piecewise(y, 0, false), moves);
    var steps := Whole(false, c, Piecewise(y, 0, false), moves);
    EveryBlockDelivered(c, y, steps);
    EveryRequestExact(c, y, steps);
  }

  lemma PiecesDeliverOrFail(c: Config, y: System, moves: seq<Move>)
    requires Start(c, y) && IsPieceRun(true, c, Piecewise(y, 0, false), moves)
    ensures var z := AfterMoves(true, c, Piecewise(y, 0, false), moves).y;
            z.failed || (z.s.finished ==> WholeFile(z.got, c.n))
  {
    PiecesRefine(true, c, Piecewise(y, 0, false), moves);
    DeliversOrFails(c, y, Whole(true, c, Piecewise(y, 0, false), moves));
  }

  // ---------------------------------------------------------------- waiting for the ids

  // The sender has read the count of the next request and nothing has happened to it since.
  ghost predicate Held(c: Config, p: Piecewise, s: Sender, read: nat) {
    p.y.read > read || p.y.failed || (p.blocked && p.y.s == s && p.y.read == read)
  }

  lemma HeldMove(free: bool, c: Config, p: Piecewise, s: Sender, read: nat, move: Move)
    requires p.arrived <= |p.y.wire| && Held(c, p, s, read) && CanMove(free, c, p, move)
    ensures Held(c, Moved(c, p, move), s, read)
  {
  }

  lemma {:induction false} HeldRun(free: bool, c: Config, p: Piecewise, s: Sender, read: nat, moves: seq<Move>)
    requires Held(c, p, s, read) && IsPieceRun(free, c, p, moves)
    ensures Held(c, AfterMoves(free, c, p, moves), s, read)
    decreases |moves|
  {
    if moves == [] {
    } else {
      HeldMove(free, c, p, s, read, moves[0]);
      HeldRun(free, c, Moved(c, p, moves[0]), s, read, moves[1..]);
    }
  }

  // A sender that reads a count whose ids have not all come posts nothing and takes no completion until it
  // has read them, whatever else happens.
  lemma WaitsForIds(free: bool, c: Config, p: Piecewise, moves: seq<Move>)
    requires p.arrived <= |p.y.wire| && CanMove(free, c, p, Take(ReadStream)) && Waits(c, p)
    requires IsPieceRun(free, c, Moved(c, p, Take(ReadStream)), moves)
    ensures var z := AfterMoves(free, c, Moved(c, p, Take(ReadStream)), moves);
            z.y.read > p.y.read || z.y.failed || z.y.s == p.y.s
  {
    HeldRun(free, c, Moved(c, p, Take(ReadStream)), p.y.s, p.y.read, moves);
  }

  // ---------------------------------------------------------------- a blocked sender is never stuck

  lemma ConcatMove(a: seq<Move>, b: seq<Move>)
    requires a != []
    ensures (a + b)[0] == a[0] && (a + b)[1..] == a[1..] + b
  {
  }

  lemma {:induction false} PieceRunConcat(c: Config, p: Piecewise, a: seq<Move>, b: seq<Move>)
    requires IsPieceRun(false, c, p, a) && IsPieceRun(false, c, AfterMoves(false, c, p, a), b)
    ensures IsPieceRun(false, c, p, a + b)
    ensures AfterMoves(false, c, p, a + b) == AfterMoves(false, c, AfterMoves(false, c, p, a), b)
    decreases |a|
  {
    if a == [] {
      assert a + b == b;
    } else {
      ConcatMove(a, b);
      PieceRunConcat(c, Moved(c, p, a[0]), a[1..], b);
    }
  }

  // All words come, and the request is read.
  lemma ReadsWhole(c: Config, p: Piecewise) returns (moves: seq<Move>)
    requires p.arrived <= |p.y.wire| && Inv(c, p.y) && Enabled(c, p.y, ReadStream)
    ensures IsPieceRun(false, c, p, moves)
    ensures var q := AfterMoves(false, c, p, moves); q.y == Do(c, p.y, ReadStream) && !q.blocked
  {
    var a := Arrive(|p.y.wire| - p.arrived);
    WholeRead(c, Moved(c, p, a));
    TwoMoves(c, p, a, Take(ReadStream));
    moves := [a, Take(ReadStream)];
  }

  lemma WholeRead(c: Config, p: Piecewise)
    requires p.arrived == |p.y.wire| && Inv(c, p.y) && Enabled(c, p.y, ReadStream)
    ensures CanMove(false, c, p, Take(ReadStream))
    ensures var q := Moved(c, p, Take(ReadStream));
            q.arrived <= |q.y.wire| && q.y == Do(c, p.y, ReadStream) && !q.blocked
  {
    assert p.y.wire[..p.arrived] == p.y.wire;
    CoreReads(c, p.y);
    MoveIsStep(false, c, p, Take(ReadStream));
  }

  lemma OneMove(c: Config, p: Piecewise, move: Move)
    requires p.arrived <= |p.y.wire| && CanMove(false, c, p, move)
    requires Moved(c, p, move).arrived <= |Moved(c, p, move).y.wire|
    ensures IsPieceRun(false, c, p, [move]) && AfterMoves(false, c, p, [move]) == Moved(c, p, move)
  {
    assert [move][1..] == [];
  }

  lemma TwoMoves(c: Config, p: Piecewise, first: Move, second: Move)
    requires p.arrived <= |p.y.wire| && CanMove(false, c, p, first)
    requires var q := Moved(c, p, first);
             && q.arrived <= |q.y.wire| && CanMove(false, c, q, second)
             && Moved(c, q, second).arrived <= |Moved(c, q, second).y.wire|
    ensures IsPieceRun(false, c, p, [first, second])
    ensures AfterMoves(false, c, p, [first, second]) == Moved(c, Moved(c, p, first), second)
  {
    assert [first, second][1..] == [second];
    OneMove(c, Moved(c, p, first), second);
  }

  lemma TakesStep(c: Config, p: Piecewise, step: Step) returns (moves: seq<Move>)
    requires p.arrived <= |p.y.wire| && Inv(c, p.y) && Enabled(c, p.y, step) && !p.blocked
    ensures IsPieceRun(false, c, p, moves)
    ensures var q := AfterMoves(false, c, p, moves); q.y == Do(c, p.y, step) && !q.blocked && Inv(c, q.y)
  {
    StepInv(c, p.y, step);
    if step.ReadStream? {
      moves := ReadsWhole(c, p);
    } else {
      MoveIsStep(false, c, p, Take(step));
      StreamGrows(c, p.y, step);
      OneMove(c, p, Take(step));
      moves := [Take(step)];
    }
  }

  lemma StreamGrows(c: Config, y: System, step: Step)
    requires !step.ReadStream?
    ensures |Do(c, y, step).wire| >= |y.wire|
  {
  }

  lemma {:induction false} TakesRun(c: Config, p: Piecewise, steps: seq<Step>) returns (moves: seq<Move>)
    requires p.arrived <= |p.y.wire| && Inv(c, p.y) && IsRun(c, p.y, steps) && !p.blocked
    ensures IsPieceRun(false, c, p, moves) && AfterMoves(false, c, p, moves).y == After(c, p.y, steps)
    decreases |steps|
  {
    if steps == [] {
      moves := [];
    } else {
      var first := TakesStep(c, p, steps[0]);
      var q := AfterMoves(false, c, p, first);
      ArrivedInStream(c, p, first);
      var rest := TakesRun(c, q, steps[1..]);
      PieceRunConcat(c, p, first, rest);
      moves := first + rest;
    }
  }

  lemma {:induction false} ArrivedInStream(c: Config, p: Piecewise, moves: seq<Move>)
    requires IsPieceRun(false, c, p, moves)
    ensures var q := AfterMoves(false, c, p, moves); q.arrived <= |q.y.wire|
    decreases |moves|
  {
    if moves == [] {
    } else {
      ArrivedInStream(c, Moved(c, p, moves[0]), moves[1..]);
    }
  }

  // A sender that is blocked has a request before it that it can read once it is whole.
  ghost predicate BlockedByStream(c: Config, p: Piecewise) {
    p.arrived <= |p.y.wire| && (p.blocked ==> p.arrived > 0 && !p.y.s.finished)
  }

  lemma {:induction false} BlockedRun(c: Config, p: Piecewise, moves: seq<Move>)
    requires IsPieceRun(false, c, p, moves) && BlockedByStream(c, p)
    ensures BlockedByStream(c, AfterMoves(false, c, p, moves))
    decreases |moves|
  {
    if moves == [] {
    } else {
      BlockedMove(c, p, moves[0]);
      BlockedRun(c, Moved(c, p, moves[0]), moves[1..]);
    }
  }

  lemma BlockedMove(c: Config, p: Piecewise, move: Move)
    requires CanMove(false, c, p, move) && BlockedByStream(c, p)
    requires Moved(c, p, move).arrived <= |Moved(c, p, move).y.wire|
    ensures BlockedByStream(c, Moved(c, p, move))
  {
  }

  // From every state that a run with pieces reaches, blocked or not, some continuation ends with the
  // sender out of its loop and the whole file received.
  lemma {:induction false} PiecesCanFinish(c: Config, y: System, moves: seq<Move>) returns (more: seq<Move>)
    requires Start(c, y) && IsPieceRun(false, c, Piecewise(y, 0, false), moves)
    ensures IsPieceRun(false, c, Piecewise(y, 0, false), moves + more)
    ensures var z := AfterMoves(false, c, Piecewise(y, 0, false), moves + more).y;
            z.s.finished && !z.failed && forall i: nat :: i < c.n ==> i in z.got
  {
    var start := Piecewise(y, 0, false);
    PiecesRefine(false, c, start, moves);
    StartInv(c, y);
    RunInv(c, y, Whole(false, c, start, moves));
    BlockedRun(c, start, moves);
    var p := AfterMoves(false, c, start, moves);
    more := FinishesFrom(c, p);
    PieceRunConcat(c, start, moves, more);
    PiecesDeliver(c, y, moves + more);
  }

  lemma FinishesFrom(c: Config, p: Piecewise) returns (more: seq<Move>)
    requires Inv(c, p.y) && BlockedByStream(c, p)
    ensures IsPieceRun(false, c, p, more) && AfterMoves(false, c, p, more).y.s.finished
  {
    var first: seq<Move> := [];
    if p.blocked { first := ReadsWhole(c, p); ReadInv(c, p.y); }
    var q := AfterMoves(false, c, p, first);
    ArrivedInStream(c, p, first);
    var steps := CanFinish(c, q.y);
    var rest := TakesRun(c, q, steps);
    PieceRunConcat(c, p, first, rest);
    more := first + rest;
  }
}
