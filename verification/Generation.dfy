/** The generation loop (generation.go): speculative or plain, its tokens are the session's, and at a
    non-positive temperature they are the network's own. */
module Generation {
  import opened Text
  import opened Sessions
  import opened Listening
  import DecoderState
  import opened Completing

  /** `greedy` is a temperature of at most zero; `stopOnEos` also says there is an engine to ask. */
  datatype Options = Options(maxTokens: int, greedy: bool, exclude: int, stopOnEos: bool, images: seq<Span>)

  datatype Ending = Finished | ContextFull | Cancelled | Unsynced | Error | SplitsImage

  predicate Stops(m: Network, opts: Options, t: Token) {
    opts.stopOnEos && m.isStop(t)
  }

  /** How many tokens a call may produce, and whether the context window is what limits it. */
  function Allowance(opts: Options, room: int): int {
    var want := if opts.maxTokens <= 0 then 128 else opts.maxTokens;
    if room <= 1 then 0 else if want > room - 1 then room - 1 else want
  }

  predicate Capped(opts: Options, room: int) {
    Allowance(opts, room) < if opts.maxTokens <= 0 then 128 else opts.maxTokens
  }

  /** The most likely token the options allow. */
  function Pick(m: Network, images: seq<Span>, opts: Options, s: seq<Token>): Token {
    if opts.exclude != 0 then m.nextExcluding(s, images, opts.exclude) else m.next(s, images)
  }

  /** Token-by-token decoding of at most `k` tokens: take the most likely token until one stops. */
  function Greedy(m: Network, images: seq<Span>, opts: Options, s: seq<Token>, k: nat): (out: seq<Token>)
    ensures |out| <= k
    decreases k
  {
    var t := Pick(m, images, opts, s);
    if k == 0 || Stops(m, opts, t) then [] else [t] + Greedy(m, images, opts, s + [t], k - 1)
  }

  predicate NoStops(m: Network, opts: Options, tokens: seq<Token>) {
    forall i :: 0 <= i < |tokens| ==> !Stops(m, opts, tokens[i])
  }

  /** Every token is the most likely one after those before it. */
  predicate FollowsPick(m: Network, images: seq<Span>, opts: Options, base: seq<Token>, run: seq<Token>) {
    forall i :: 0 <= i < |run| ==> run[i] == Pick(m, images, opts, base + run[..i])
  }

  // ----- drawing -----

  /** One drawing: how many tokens were there, whether the most likely one was asked for, the generator and images it
      was drawn with, and which of the control's answers it went by. */
  datatype Drawing = Drawing(at: nat, greedy: bool, rng: Rng, images: seq<Span>, wish: nat)

  /** The token drawn after `s`, and the generator afterwards: the most likely token leaves it alone. */
  function Drawn(m: Network, opts: Options, s: seq<Token>, w: Drawing): (Token, Rng) {
    if w.greedy then (Pick(m, w.images, opts, s), w.rng) else m.sample(s, w.images, w.rng)
  }

  function Modes(ws: seq<Drawing>): (ms: seq<bool>)
    ensures |ms| == |ws|
  {
    seq(|ws|, i requires 0 <= i < |ws| => ws[i].greedy)
  }

  /** Token-by-token decoding under given modes, each token the most likely one or a sample, until one stops. */
  function Decoded(m: Network, images: seq<Span>, opts: Options, s: seq<Token>, rng: Rng,
          modes: seq<bool>): (out: seq<Token>)
    ensures |out| <= |modes|
    decreases |modes|
  {
    if modes == [] then []
    else
      var d := Drawn(m, opts, s, Drawing(0, modes[0], rng, images, 0));
      if Stops(m, opts, d.0) then [] else [d.0] + Decoded(m, images, opts, s + [d.0], d.1, modes[1..])
  }

  /** Asked for the most likely token each time, this is greedy decoding. */
  lemma {:induction false} GreedyIsDecoded(m: Network, images: seq<Span>, opts: Options, s: seq<Token>, rng: Rng,
          k: nat)
    ensures Decoded(m, images, opts, s, rng, seq(k, i => true)) == Greedy(m, images, opts, s, k)
    decreases k
  {
    hide Pick, Stops;
    if k > 0 {
      var t := Pick(m, images, opts, s);
      assert seq(k, i => true)[1..] == seq(k - 1, i => true);
      GreedyIsDecoded(m, images, opts, s + [t], rng, k - 1);
    }
  }

  /** Every drawing is the next returned token, unless nothing was returned after it. */
  predicate Returned(m: Network, opts: Options, base: seq<Token>, out: seq<Token>, ws: seq<Drawing>) {
    forall j :: 0 <= j < |ws| ==>
      && ws[j].at <= |out| && (opts.greedy ==> ws[j].greedy)
      && (ws[j].at < |out| ==> out[ws[j].at] == Drawn(m, opts, base + out[..ws[j].at], ws[j]).0)
  }

  /** The drawings of a run: the first has the seed, each has the generator the one before left, unless a speculative
      block was sampled in between. Without speculation every token was drawn, with the images of the start. */
  predicate Drawings(m: Network, images: seq<Span>, opts: Options, base: seq<Token>, seed: Rng, out: seq<Token>,
          ws: seq<Drawing>) {
    && Returned(m, opts, base, out, ws)
    && (ws != [] ==> ws[0].at == 0 && ws[0].rng == seed && ws[0].images == images)
    && (ws == [] ==> out == []) && Chained(m, opts, base, out, ws)
    && (!Speculates(m, opts) ==>
       |out| <= |ws| <= |out| + 1 && forall j :: 0 <= j < |ws| ==> ws[j].at == j && ws[j].images == images)
  }

  predicate Chained(m: Network, opts: Options, base: seq<Token>, out: seq<Token>, ws: seq<Drawing>) {
    forall j :: 0 <= j < |ws| - 1 ==>
      && ws[j].at < ws[j + 1].at
      && (ws[j].greedy || !Speculates(m, opts) ==>
         ws[j + 1].rng == Drawn(m, opts, base + Taken(out, ws[j].at), ws[j]).1)
  }

  function Taken(out: seq<Token>, n: nat): seq<Token> {
    if n <= |out| then out[..n] else out
  }

  /** The generator after the drawings, if they determine it. */
  predicate Left(m: Network, opts: Options, base: seq<Token>, seed: Rng, out: seq<Token>, ws: seq<Drawing>, rng: Rng) {
    if ws == [] then rng == seed
    else
      var w := ws[|ws| - 1];
      w.greedy || !Speculates(m, opts) ==> rng == Drawn(m, opts, base + Taken(out, w.at), w).1
  }

  predicate Speculates(m: Network, opts: Options) {
    m.draft > 1 && opts.exclude == 0 && (opts.greedy || m.sampledSpeculative)
  }

  /** A stop token came after `s`: the one drawn there, but for one drafted under sampling. */
  ghost predicate StopDrawn(m: Network, images: seq<Span>, opts: Options, s: seq<Token>) {
    exists t: Token, w: Drawing :: StopsAs(m, images, opts, s, t, w)
  }

  predicate StopsAs(m: Network, images: seq<Span>, opts: Options, s: seq<Token>, t: Token, w: Drawing) {
    && Stops(m, opts, t) && w.images == images && (opts.greedy ==> w.greedy)
    && (opts.greedy || !Speculates(m, opts) ==> t == Drawn(m, opts, s, w).0)
  }

  /** One more drawing, and what was returned because of it. */
  lemma DrawOnce(m: Network, images: seq<Span>, opts: Options, base: seq<Token>, seed: Rng, out: seq<Token>,
          ws: seq<Drawing>, w: Drawing, more: seq<Token>)
    requires Drawings(m, images, opts, base, seed, out, ws) && Left(m, opts, base, seed, out, ws, w.rng)
    requires w.at == |out| && (opts.greedy ==> w.greedy) && (ws == [] ==> w.images == images)
    requires forall j :: 0 <= j < |ws| ==> ws[j].at < |out|
    requires more != [] ==> more[0] == Drawn(m, opts, base + out, w).0
    requires !Speculates(m, opts) ==> |ws| == |out| && |more| <= 1 && w.images == images
    ensures Drawings(m, images, opts, base, seed, out + more, ws + [w])
  {
    hide Drawn, Speculates, Chained, Returned;
    ReturnedMore(m, opts, base, out, ws, w, more);
    ChainedMore(m, opts, base, seed, out, ws, w, more);
    assert forall j :: 0 <= j < |ws| ==> (ws + [w])[j] == ws[j];
  }

  lemma ReturnedMore(m: Network, opts: Options, base: seq<Token>, out: seq<Token>, ws: seq<Drawing>, w: Drawing,
          more: seq<Token>)
    requires Returned(m, opts, base, out, ws) && w.at == |out| && (opts.greedy ==> w.greedy)
    requires more != [] ==> more[0] == Drawn(m, opts, base + out, w).0
    requires forall j :: 0 <= j < |ws| ==> ws[j].at < |out|
    ensures Returned(m, opts, base, out + more, ws + [w])
  {
    hide Drawn;
    var all, vs := out + more, ws + [w];
    forall j | 0 <= j < |vs| && vs[j].at < |all|
      ensures all[vs[j].at] == Drawn(m, opts, base + all[..vs[j].at], vs[j]).0
    {
      var n := if j < |ws| then ws[j].at else |out|;
      assert vs[j] == if j < |ws| then ws[j] else w;
      assert all[..n] == out[..n];
      assert out[..|out|] == out;
    }
  }

  lemma ChainedMore(m: Network, opts: Options, base: seq<Token>, seed: Rng, out: seq<Token>, ws: seq<Drawing>,
          w: Drawing, more: seq<Token>)
    requires Chained(m, opts, base, out, ws) && Left(m, opts, base, seed, out, ws, w.rng)
    requires w.at == |out| && forall j :: 0 <= j < |ws| ==> ws[j].at < |out|
    ensures Chained(m, opts, base, out + more, ws + [w])
  {
    hide Drawn, Speculates;
    var all, vs := out + more, ws + [w];
    forall j | 0 <= j < |vs| - 1
      ensures vs[j].at < vs[j + 1].at
      ensures vs[j].greedy || !Speculates(m, opts) ==>
                vs[j + 1].rng == Drawn(m, opts, base + Taken(all, vs[j].at), vs[j]).1
    {
      assert vs[j] == ws[j] && vs[j + 1] == if j + 1 < |ws| then ws[j + 1] else w;
      assert Taken(all, ws[j].at) == Taken(out, ws[j].at);
    }
  }

  /** Without speculation, what was returned is token-by-token decoding under the modes drawn; and under any modes to
      come, once a stop was drawn. */
  lemma {:induction false} DrawnIsDecoded(m: Network, images: seq<Span>, opts: Options, base: seq<Token>, seed: Rng,
          out: seq<Token>, ws: seq<Drawing>, ms: seq<bool>, i: nat)
    requires Drawings(m, images, opts, base, seed, out, ws) && !Speculates(m, opts) && NoStops(m, opts, out)
    requires i <= |out| && Modes(ws) <= ms && (|ws| == |out| ==> |ms| == |out|)
    requires |ws| > |out| ==> Stops(m, opts, Drawn(m, opts, base + out, ws[|out|]).0)
    ensures var rng := if i < |ws| then ws[i].rng else seed;
            i < |ms| ==> Decoded(m, images, opts, base + out[..i], rng, ms[i..]) == out[i..]
    ensures i >= |ms| ==> out[i..] == []
    decreases |out| - i
  {
    hide Pick, Stops, Speculates;
    if i < |ms| {
      assert out[..|out|] == out;
      assert ms[i] == Modes(ws)[i];
      var w := ws[i];
      var d := Drawn(m, opts, base + out[..i], w);
      assert d == Drawn(m, opts, base + out[..i], Drawing(0, ms[i..][0], w.rng, images, 0));
      if i < |out| {
        assert base + out[..i] + [out[i]] == base + out[..i + 1];
        assert ms[i..][1..] == ms[i + 1..];
        assert out[i..] == [out[i]] + out[i + 1..];
        DrawnIsDecoded(m, images, opts, base, seed, out, ws, ms, i + 1);
        assert Taken(out, i) == out[..i];
        assert i + 1 < |ws| ==> ws[i + 1].rng == d.1;
      }
    }
  }

  // ----- greedy decoding -----

  /** A run of most likely tokens is what token-by-token decoding produces, and decoding goes on behind it. */
  lemma {:induction false} RunIsGreedy(m: Network, images: seq<Span>, opts: Options, s: seq<Token>, run: seq<Token>,
          k: nat)
    requires |run| <= k && FollowsPick(m, images, opts, s, run) && NoStops(m, opts, run)
    ensures Greedy(m, images, opts, s, k) == run + Greedy(m, images, opts, s + run, k - |run|)
    decreases |run|
  {
    hide Pick, Stops;
    if run == [] {
      assert s + run == s;
    } else {
      var t, rest := run[0], run[1..];
      assert s + run[..0] == s;
      forall i | 0 <= i < |rest| ensures rest[i] == Pick(m, images, opts, s + [t] + rest[..i]) {
        assert s + [t] + rest[..i] == s + run[..i + 1];
        assert run[i + 1] == rest[i];
      }
      RunIsGreedy(m, images, opts, s + [t], rest, k - 1);
      assert s + [t] + rest == s + run;
      assert run == [t] + rest;
    }
  }

  /** What a call that did not fail leaves: the session has grown by the returned tokens. It can go on if it
      could before or anything was returned; only a session cut back to nothing has lost its checkpoint. */
  ghost predicate Advanced(session: Session, base: seq<Token>, could: bool, out: seq<Token>)
    reads session
  {
    session.tokens == base + out && (could || out != [] ==> session.valid || session.tokens == [])
  }

  predicate Orderly(end: Ending) {
    end.Finished? || end.ContextFull? || end.Cancelled?
  }

  /** How a failed rewind ends the call. */
  function After(status: Status, end: Ending): Ending {
    match status
    case Done => end
    case Failed => Error
    case Split(_) => SplitsImage
  }

  method ShouldSampleGreedy(listener: Listener, opts: Options) returns (greedy: bool)
    modifies listener`wishes
    ensures if opts.greedy then greedy && listener.wishes == old(listener.wishes)
            else listener.wishes == old(listener.wishes) + [greedy]
    ensures old(listener.Ready()) ==> listener.Ready()
    ensures old(listener.Halted()) ==> listener.Halted()
  {
    hide Listener.Ready, Listener.Halted;
    if opts.greedy {
      return true;
    }
    greedy := listener.WantsGreedy();
  }

  /** The listener has heard exactly these tokens, one by one. */
  ghost predicate Heard(listener: Listener, was: seq<Entry>, budget: int, why: Cause, tokens: seq<Token>)
    reads listener
  {
    && listener.ledger == was + AllSampled(tokens) && listener.remaining == budget - |tokens|
    && (tokens == [] || why != Running ==> listener.cause == why)
  }

  /** Between the two marks: never rewound below `from`, never grown beyond `to`. */
  ghost predicate Bounded(session: Session, lowest: int, highest: int, from: int, to: int)
    reads session
  {
    session.lowest >= Min(lowest, from) && session.highest <= Max(highest, to)
  }

  /** Why a call ends without success: only a failed native call is an error, and only a cancelled context stops it. */
  ghost predicate Excused(session: Session, listener: Listener, failed: bool, end: Option<Ending>)
    reads session, listener
  {
    && session.failed == (failed || end == Some(Error))
    && (end == Some(Cancelled) ==> listener.cause != Running || listener.parentDone)
  }

  /** Cuts the session back to `base` and part of what followed; images inside `base` all survive. */
  method CutBack(session: Session, opts: Options, start: nat, n: nat, ghost base: seq<Token>,
          ghost tail: seq<Token>) returns (status: Status)
    requires session.tokens == base + tail && start == |base| && n <= |tail|
    modifies session
    ensures status == Done ==> Advanced(session, base, true, tail[..n])
    ensures Bounded(session, old(session.lowest), old(session.highest), |base| + n, |base| + |tail|)
    ensures Inside(opts.images, |base|) ==> !status.Split?
    ensures Inside(opts.images, |base|) && status == Done && old(session.images) == opts.images ==>
            session.images == opts.images
    ensures session.failed == (old(session.failed) || status == Failed)
  {
    hide Kept, Straddles;
    assert Retained(session.tokens, start + n) == base + tail[..n];
    if Inside(opts.images, |base|) {
      AllKept(opts.images, |base| + n);
    }
    status := session.RewindSynced(start + n, opts.images);
  }

  /** Cuts the session back in front of a token and evaluates it again, for the logits behind it. */
  method Reevaluate(session: Session, opts: Options, start: nat, n: nat, ghost base: seq<Token>,
          ghost tail: seq<Token>, t: Token) returns (end: Option<Ending>)
    requires session.tokens == base + tail && start == |base| && n < |tail| && tail[n] == t
    modifies session
    ensures end == None ==> session.valid && Advanced(session, base, true, tail[..n + 1])
    ensures end == None || end == Some(Error) || end == Some(SplitsImage)
    ensures Bounded(session, old(session.lowest), old(session.highest), |base| + n, |base| + |tail|)
    ensures Inside(opts.images, |base|) ==> end != Some(SplitsImage)
    ensures Inside(opts.images, |base|) && end == None && old(session.images) == opts.images ==>
            session.images == opts.images
    ensures session.failed == (old(session.failed) || end == Some(Error))
  {
    hide Inside;
    var status := CutBack(session, opts, start, n, base, tail);
    if status != Done {
      return Some(After(status, Error));
    }
    var ok := session.Eval(t);
    assert base + tail[..n] + [t] == base + tail[..n + 1];
    end := if ok then None else Some(Error);
  }

  lemma HeardOne(was: seq<Entry>, tokens: seq<Token>, t: Token)
    ensures was + AllSampled(tokens) + [Sampled(t)] == was + AllSampled(tokens + [t])
  {}

  /** Under exact sampling the mode was asked for after every token taken but the block's last, and never changed
      before the token at which the block was cut. */
  predicate AskedEach(wishes: seq<bool>, greedy: bool, taken: nat, length: nat) {
    if taken < length then
      |wishes| == taken && forall i :: 0 <= i < taken ==> (wishes[i] == greedy <==> i < taken - 1)
    else |wishes| == taken - 1 && forall i :: 0 <= i < |wishes| ==> wishes[i] == greedy
  }

  /** So far the same mode was asked for each time. */
  predicate SameMode(before: seq<bool>, wishes: seq<bool>, n: nat, greedy: bool) {
    wishes == before + seq(n, i => greedy)
  }

  /** What taking a run asked for: nothing, unless under exact sampling. */
  predicate Asked(before: seq<bool>, wishes: seq<bool>, exact: bool, greedy: bool, taken: nat, length: nat,
          ended: bool) {
    && before <= wishes && (!exact ==> wishes == before)
    && (exact && !ended ==> AskedEach(wishes[|before|..], greedy, taken, length))
  }

  lemma NeverAsked(before: seq<bool>, greedy: bool)
    ensures SameMode(before, before, 0, greedy)
  {}

  lemma AskedSoFar(before: seq<bool>, wishes: seq<bool>, exact: bool, greedy: bool, n: nat, length: nat)
    requires SameMode(before, wishes, if exact then n else 0, greedy)
    ensures Asked(before, wishes, exact, greedy, n, length, true)
    ensures Asked(before, wishes, exact, greedy, n + 1, length, true)
    ensures n + 1 == length ==> Asked(before, wishes, exact, greedy, n + 1, length, false)
    ensures !exact ==> SameMode(before, wishes, 0, greedy)
    ensures exact ==> SameMode(before, wishes + [greedy], n + 1, greedy)
    ensures exact && n + 1 < length ==>
              Asked(before, wishes + [!greedy], exact, greedy, n + 1, length, false) &&
              Asked(before, wishes + [!greedy], exact, greedy, n + 1, length, true)
  {}

  /** Every accepted token up to the first stop, cancellation or change of mode is heard; the session is cut
      back to exactly those. */
  method TakeRun(session: Session, listener: Listener, opts: Options, exact: bool, greedy: bool, blockStart: nat,
          accepted: seq<Token>, ghost base: seq<Token>)
      returns (taken: nat, end: Option<Ending>)
    requires accepted != [] && session.valid && session.tokens == base + accepted && blockStart == |base|
    requires exact ==> !opts.greedy
    requires !listener.stopped && listener.cause == Running
    requires listener.Ready()
    modifies session, listener, listener.dec
    ensures listener.Halted()
    ensures taken <= |accepted| &&
            Heard(listener, old(listener.ledger), old(listener.remaining), Running, accepted[..taken])
    ensures NoStops(session.network, opts, accepted[..taken])
    ensures end.None? || Orderly(end.value) ==> Advanced(session, base, true, accepted[..taken])
    ensures end.None? ==> taken > 0 && session.valid && (taken < |accepted| ==> exact)
    ensures end == Some(Finished) ==> taken < |accepted| && Stops(session.network, opts, accepted[taken])
    ensures end != Some(ContextFull) && end != Some(Unsynced)
    ensures end.None? && !exact ==> session.images == old(session.images)
    ensures Asked(old(listener.wishes), listener.wishes, exact, greedy, taken, |accepted|, end.Some?)
    ensures Bounded(session, old(session.lowest), old(session.highest), |base|, |base| + |accepted|)
    ensures Inside(opts.images, |base|) ==> end != Some(SplitsImage)
    ensures Inside(opts.images, |base|) && old(session.images) == opts.images && (end.None? || Orderly(end.value)) ==>
            session.images == opts.images
    ensures Excused(session, listener, old(session.failed), end)
    ensures listener.Ready()
  {
    hide Listener.Ready, Listener.Signalled, Listener.Listens, Listener.Balanced, Complete, Spelling, Retained, Kept,
         Inside, Straddles, SameMode, Asked, Stops, AllSampled;
    taken, end := 0, None;
    NeverAsked(listener.wishes, greedy);
    NothingMore(session, listener);
    assert accepted[..0] == [];
    while taken < |accepted|
      invariant taken < |accepted| && !listener.stopped && listener.cause == Running
      invariant session.valid && session.tokens == base + accepted && session.images == old(session.images)
      invariant session.lowest == old(session.lowest) && session.highest == old(session.highest)
      invariant session.failed == old(session.failed) && listener.Ready() && listener.Halted()
      invariant SameMode(old(listener.wishes), listener.wishes, if exact then taken else 0, greedy)
      invariant Heard(listener, old(listener.ledger), old(listener.remaining), Running, accepted[..taken])
      invariant NoStops(session.network, opts, accepted[..taken])
    {
      var t := accepted[taken];
      AskedSoFar(old(listener.wishes), listener.wishes, exact, greedy, taken, |accepted|);
      if Stops(session.network, opts, t) {
        var status := CutBack(session, opts, blockStart, taken, base, accepted);
        return taken, Some(After(status, Finished));
      }
      HeardOne(old(listener.ledger), accepted[..taken], t);
      assert accepted[..taken] + [t] == accepted[..taken + 1];
      listener.OnToken(t);
      taken := taken + 1;
      if taken >= |accepted| {
        break;
      }
      var cancelled := listener.Cancelled();
      if cancelled {
        var status := CutBack(session, opts, blockStart, taken, base, accepted);
        return taken, Some(After(status, Cancelled));
      }
      if exact {
        var now := ShouldSampleGreedy(listener, opts);
        if now != greedy {
          end := Reevaluate(session, opts, blockStart, taken - 1, base, accepted, t);
          return;
        }
      }
    }
  }

  method Draw(session: Session, listener: Listener, opts: Options, rng: Rng) returns (token: int, greedy: bool,
          rng': Rng)
    modifies listener`wishes
    ensures if opts.greedy then greedy && listener.wishes == old(listener.wishes)
            else listener.wishes == old(listener.wishes) + [greedy]
    ensures old(listener.Ready()) ==> listener.Ready()
    ensures old(listener.Halted()) ==> listener.Halted()
    ensures token >= 0 <==> session.valid
    ensures var d := Drawn(session.network, opts, session.tokens, Drawing(0, greedy, rng, session.images, 0));
            session.valid ==> token == d.0 && rng' == d.1
  {
    hide Listener.Ready, Listener.Halted;
    greedy := ShouldSampleGreedy(listener, opts);
    rng' := rng;
    if !greedy {
      token, rng' := session.Sample(rng);
    } else if opts.exclude != 0 {
      token := session.ArgmaxExcluding(opts.exclude);
    } else {
      token := session.Argmax();
    }
  }

  /** What one turn of the loop adds: tokens heard and in the session, no stop among them. */
  ghost predicate Grown(session: Session, listener: Listener, opts: Options, base: seq<Token>, could: bool,
                         was: seq<Entry>, budget: int, why: Cause, more: seq<Token>, end: Option<Ending>)
    reads session, listener
  {
    && Heard(listener, was, budget, why, more) && NoStops(session.network, opts, more)
    && (end.None? || Orderly(end.value) ==> Advanced(session, base, could, more))
    && (end.None? ==> more != [] && session.valid)
    && (end == Some(Unsynced) ==> more == [] && !could)
    && end != Some(ContextFull)
  }

  /** At a non-positive temperature: the most likely tokens, and an early end only at a stop. */
  predicate Faithfully(m: Network, images: seq<Span>, opts: Options, base: seq<Token>, more: seq<Token>,
          end: Option<Ending>) {
    && FollowsPick(m, images, opts, base, more)
    && (end == Some(Finished) ==> Stops(m, opts, Pick(m, images, opts, base + more)))
  }

  /** One token at a time. */
  method PlainStep(session: Session, listener: Listener, opts: Options, token: Token) returns (more: seq<Token>,
          end: Option<Ending>)
    requires session.valid && !Stops(session.network, opts, token)
    requires opts.greedy ==> token == Pick(session.network, session.images, opts, session.tokens)
    requires !listener.stopped && listener.cause == Running
    requires listener.Ready()
    modifies session, listener, listener.dec
    ensures listener.Halted() && more == [token] && (end.None? || end == Some(Error))
    ensures listener.wishes == old(listener.wishes)
    ensures Grown(session, listener, opts, old(session.tokens), true, old(listener.ledger), old(listener.remaining),
                  Running, more, end)
    ensures opts.greedy ==> Faithfully(session.network, old(session.images), opts, old(session.tokens), more, end)
    ensures Bounded(session, old(session.lowest), old(session.highest), |old(session.tokens)|, |old(session.tokens)| +
            1)
    ensures end.None? ==> session.images == old(session.images)
    ensures Excused(session, listener, old(session.failed), end)
    ensures listener.Ready()
  {
    hide Listener.Ready, Listener.Signalled, Complete, Spelling;
    assert [token] == [] + [token] && [token][..0] == [] && session.tokens + [] == session.tokens;
    HeardOne(listener.ledger, [], token);
    assert listener.ledger + AllSampled([]) == listener.ledger;
    listener.OnToken(token);
    var ok := session.Eval(token);
    more, end := [token], if ok then None else Some(Error);
  }

  /** One speculative block: at least the drawn token, at most what is left. */
  method SpeculativeStep(session: Session, listener: Listener, opts: Options, token: Token, greedy: bool, left: nat,
          rng: Rng)
      returns (more: seq<Token>, end: Option<Ending>, rng': Rng)
    requires left > 0 && session.valid && Speculates(session.network, opts) && (opts.greedy ==> greedy)
    requires !Stops(session.network, opts, token)
    requires greedy ==> token == Pick(session.network, session.images, opts, session.tokens)
    requires !listener.stopped && listener.cause == Running
    requires listener.Ready()
    modifies session, listener, listener.dec
    ensures listener.Halted() && |more| <= left && (end == Some(Finished) ==> |more| < left)
    ensures (more != [] ==> more[0] == token) && (greedy ==> rng' == rng)
    ensures old(listener.wishes) <= listener.wishes
    ensures !Exact(session.network, opts) ==> listener.wishes == old(listener.wishes)
    ensures Exact(session.network, opts) && end == None ==>
            KeptMode([greedy] + listener.wishes[|old(listener.wishes)|..], greedy, |more|)
    ensures end == Some(Finished) ==> StopDrawn(session.network, old(session.images), opts, old(session.tokens) + more)
    ensures Grown(session, listener, opts, old(session.tokens), true, old(listener.ledger), old(listener.remaining),
                  Running, more, end)
    ensures opts.greedy ==> Faithfully(session.network, old(session.images), opts, old(session.tokens), more, end)
    ensures opts.greedy && end.None? ==> session.images == old(session.images)
    ensures Bounded(session, old(session.lowest), old(session.highest), |old(session.tokens)|, |old(session.tokens)| +
            left)
    ensures InsideKept(session, opts, old(session.tokens), old(session.images), end)
    ensures Excused(session, listener, old(session.failed), end)
    ensures listener.Ready()
  {
    hide Listener.Ready, Inside, AllSampled;
    ghost var base := session.tokens;
    NothingMore(session, listener);
    assert base + [] == base && [token][..0] == [];
    var draft := if left > session.network.draft then session.network.draft else left;
    var blockStart := session.Pos();
    var accepted: seq<Token>;
    var ok: bool;
    rng' := rng;
    if greedy {
      accepted, ok := session.EvalSpeculativeArgmax(token, draft);
    } else {
      accepted, rng', ok := session.EvalSpeculative(token, draft, rng);
    }
    if !ok {
      return [], Some(Error), rng';
    }
    if accepted == [] {
      more, end := PlainStep(session, listener, opts, token);
      return;
    }
    var taken: nat;
    taken, end := TakeRun(session, listener, opts, !opts.greedy && session.network.exactSampling, greedy, blockStart,
                          accepted, base);
    more := accepted[..taken];
    if end == Some(Finished) && !opts.greedy {
      assert StopsAs(session.network, old(session.images), opts, base + more, accepted[taken],
                     Drawing(0, true, 0, old(session.images), 0));
    }
    if opts.greedy {
      assert session.network.next(base + accepted[..0], old(session.images)) == token by {
        assert base + accepted[..0] == base;
      }
      assert
        && FollowsPick(session.network, old(session.images), opts, base, accepted[..taken])
        && (taken < |accepted| ==>
           accepted[taken] == Pick(session.network, old(session.images), opts, base + accepted[..taken])) by {
        forall i | 0 <= i < taken
          ensures accepted[..taken][i] ==
                  Pick(session.network, old(session.images), opts, base + accepted[..taken][..i])
        {
          assert accepted[..taken][..i] == accepted[..i];
        }
      }
      if end == Some(Finished) {
        assert StopsAs(session.network, old(session.images), opts, base + more, accepted[taken],
                       Drawing(0, true, 0, old(session.images), 0));
      }
    }
  }

  /** Images inside the prompt survive every orderly end. */
  ghost predicate InsideKept(session: Session, opts: Options, base: seq<Token>, images: seq<Span>, end: Option<Ending>)
    reads session
  {
    Inside(opts.images, |base|) ==>
      && end != Some(SplitsImage)
      && (images == opts.images && (end.None? || Orderly(end.value)) ==> session.images == opts.images)
  }

  lemma FollowsAppend(m: Network, images: seq<Span>, opts: Options, base: seq<Token>, out: seq<Token>, more: seq<Token>)
    requires FollowsPick(m, images, opts, base, out) && FollowsPick(m, images, opts, base + out, more)
    ensures FollowsPick(m, images, opts, base, out + more)
  {
    forall i | 0 <= i < |out + more| ensures (out + more)[i] == Pick(m, images, opts, base + (out + more)[..i]) {
      if i < |out| {
        assert (out + more)[..i] == out[..i];
      } else {
        assert base + (out + more)[..i] == base + out + more[..i - |out|];
      }
    }
  }

  lemma NoStopsAppend(m: Network, opts: Options, out: seq<Token>, more: seq<Token>)
    requires NoStops(m, opts, out) && NoStops(m, opts, more)
    ensures NoStops(m, opts, out + more)
  {}

  lemma InsideMore(images: seq<Span>, n: nat, k: nat)
    requires n <= k
    ensures Inside(images, n) ==> Inside(images, k)
  {}

  lemma NothingYet(m: Network, images: seq<Span>, opts: Options, start: seq<Token>)
    ensures NoStops(m, opts, []) && FollowsPick(m, images, opts, start, [])
  {}

  lemma HeardMore(was: seq<Entry>, out: seq<Token>, more: seq<Token>)
    ensures was + AllSampled(out) + AllSampled(more) == was + AllSampled(out + more)
  {}

  /** A run of most likely tokens that used up the allowance, or after which the most likely token stops,
      is all that token-by-token decoding produces; any other is the beginning of it. */
  lemma GreedyEnds(m: Network, images: seq<Span>, opts: Options, s: seq<Token>, out: seq<Token>, k: nat)
    requires |out| <= k && FollowsPick(m, images, opts, s, out) && NoStops(m, opts, out)
    ensures out <= Greedy(m, images, opts, s, k)
    ensures |out| == k || Stops(m, opts, Pick(m, images, opts, s + out)) ==> out == Greedy(m, images, opts, s, k)
  {
    RunIsGreedy(m, images, opts, s, out, k);
  }

  /** The tokens a call may end with, and how it then ends. */
  predicate Outcome(m: Network, images: seq<Span>, opts: Options, start: seq<Token>, room: int, out: seq<Token>,
          end: Ending) {
    && |out| <= Max(Allowance(opts, room), 0) && NoStops(m, opts, out)
    && (opts.greedy ==> FollowsPick(m, images, opts, start, out))
    && (end.Finished? || end.ContextFull? ==>
       (end.ContextFull? <==> room <= 1 || (Capped(opts, room) && |out| == Allowance(opts, room))))
    && (opts.greedy && (end.Finished? || end.ContextFull?) ==>
       out == Greedy(m, images, opts, start, Max(Allowance(opts, room), 0)))
    && (opts.greedy && end.Cancelled? ==> out <= Greedy(m, images, opts, start, Max(Allowance(opts, room), 0)))
  }

  lemma EndsWell(m: Network, images: seq<Span>, opts: Options, start: seq<Token>, room: int, out: seq<Token>,
          end: Ending)
    requires |out| <= Max(Allowance(opts, room), 0) && NoStops(m, opts, out) &&
             (opts.greedy ==> FollowsPick(m, images, opts, start, out))
    requires end.Finished? || end.ContextFull? ==>
      && (end.ContextFull? <==> room <= 1 || (Capped(opts, room) && |out| == Allowance(opts, room)))
      && (opts.greedy ==> |out| == Max(Allowance(opts, room), 0) || Stops(m, opts, Pick(m, images, opts, start + out)))
    ensures Outcome(m, images, opts, start, room, out, end)
  {
    if opts.greedy {
      GreedyEnds(m, images, opts, start, out, Max(Allowance(opts, room), 0));
    }
  }

  lemma NothingMore(session: Session, listener: Listener)
    ensures session.tokens + [] == session.tokens && listener.ledger + AllSampled([]) == listener.ledger
  {}

  /** A speculative block is verified as sampled, token by token. */
  predicate Exact(m: Network, opts: Options) {
    !opts.greedy && m.exactSampling && Speculates(m, opts)
  }

  /** What the control answered in one turn of the loop: first for the token drawn, then under exact sampling after
      every further token, and none was returned behind another answer. */
  predicate AskedFor(m: Network, opts: Options, mode: Option<bool>, more: seq<Token>, end: Option<Ending>,
          wishes: seq<bool>) {
    if opts.greedy then wishes == []
    else match mode
      case None => |wishes| <= 1
      case Some(greedy) =>
        && wishes != [] && wishes[0] == greedy
        && (!Exact(m, opts) ==> |wishes| == 1)
        && (Exact(m, opts) && end == None ==> KeptMode(wishes, greedy, |more|))
  }

  predicate KeptMode(wishes: seq<bool>, greedy: bool, n: nat) {
    n <= |wishes| && forall i :: 0 <= i < n ==> wishes[i] == greedy
  }

  /** Each drawing went by an answer of the control, in order; without exact sampling by every one. */
  predicate AsAsked(m: Network, opts: Options, ws: seq<Drawing>, wishes: seq<bool>) {
    if opts.greedy then wishes == []
    else
      && (forall j :: 0 <= j < |ws| ==> ws[j].wish < |wishes| && ws[j].greedy == wishes[ws[j].wish])
      && (forall j :: 0 <= j < |ws| - 1 ==> ws[j].wish < ws[j + 1].wish)
      && (!Exact(m, opts) ==> forall j :: 0 <= j < |ws| ==> ws[j].wish == j)
  }

  lemma AskedMore(m: Network, opts: Options, ws: seq<Drawing>, wishes: seq<bool>, at: nat, mode: Option<bool>, rng: Rng,
          images: seq<Span>, more: seq<Token>, end: Option<Ending>, answers: seq<bool>)
    requires AsAsked(m, opts, ws, wishes) && AskedFor(m, opts, mode, more, end, answers)
    requires !Exact(m, opts) && !opts.greedy ==> |wishes| == |ws|
    ensures AsAsked(m, opts, Recorded(ws, at, mode, rng, images, |wishes|), wishes + answers)
    ensures !Exact(m, opts) && !opts.greedy && mode.Some? ==>
            |wishes + answers| == |Recorded(ws, at, mode, rng, images, |wishes|)|
  {
    hide Exact;
    var vs := Recorded(ws, at, mode, rng, images, |wishes|);
    assert forall j :: 0 <= j < |ws| ==> vs[j] == ws[j];
  }

  /** What one turn of the loop drew: nothing when it was cancelled or the session had no checkpoint; else the first
      token it returned, or without speculation the stop token it ended at. */
  ghost predicate DrawnFor(m: Network, images: seq<Span>, opts: Options, s: seq<Token>, rng: Rng, mode: Option<bool>,
                            more: seq<Token>, end: Option<Ending>, rng': Rng) {
    match mode
    case None => more == [] && (end == Some(Cancelled) || end == Some(Unsynced))
    case Some(greedy) =>
      var d := Drawn(m, opts, s, Drawing(0, greedy, rng, images, 0));
      && (opts.greedy ==> greedy) && (more != [] ==> more[0] == d.0)
      && (greedy || !Speculates(m, opts) ==> rng' == d.1)
      && (end == Some(Finished) ==> StopDrawn(m, images, opts, s + more))
      && (!Speculates(m, opts) ==>
         |more| <= 1 && (more == [] <==> end == Some(Finished)) && (more == [] ==> Stops(m, opts, d.0)))
  }

  /** One turn of the loop: look for cancellation, draw, look for a stop, and evaluate. */
  method Turn(session: Session, listener: Listener, opts: Options, left: nat, rng: Rng) returns (more: seq<Token>,
          end: Option<Ending>, rng': Rng, ghost mode: Option<bool>, ghost asked: seq<bool>)
    requires left > 0 && listener.Ready() && listener.Halted()
    modifies session, listener, listener.dec
    ensures listener.Halted() && |more| <= left
    ensures Grown(session, listener, opts, old(session.tokens), old(session.valid), old(listener.ledger),
                  old(listener.remaining), old(listener.cause), more, end)
    ensures end == Some(Finished) ==> |more| < left
    ensures opts.greedy ==> Faithfully(session.network, old(session.images), opts, old(session.tokens), more, end)
    ensures opts.greedy && end.None? ==> session.images == old(session.images)
    ensures Bounded(session, old(session.lowest), old(session.highest), |old(session.tokens)|, |old(session.tokens)| +
            left)
    ensures InsideKept(session, opts, old(session.tokens), old(session.images), end)
    ensures DrawnFor(session.network, old(session.images), opts, old(session.tokens), rng, mode, more, end, rng')
    ensures !Speculates(session.network, opts) ==> session.images == old(session.images) || end.Some?
    ensures listener.wishes == old(listener.wishes) + asked
    ensures AskedFor(session.network, opts, mode, more, end, asked)
    ensures Excused(session, listener, old(session.failed), end)
    ensures listener.Ready()
  {
    hide Listener.Ready, Inside, Stops, AllSampled, Greedy;
    rng' := rng;
    mode, asked := None, [];
    NothingMore(session, listener);
    var cancelled := listener.Cancelled();
    if cancelled {
      return [], Some(Cancelled), rng', None, [];
    }
    var token, greedy, drawn := Draw(session, listener, opts, rng);
    rng' := drawn;
    asked := if opts.greedy then [] else [greedy];
    if token < 0 {
      return [], Some(Unsynced), rng', None, asked;
    }
    mode := Some(greedy);
    if Stops(session.network, opts, token) {
      assert StopsAs(session.network, session.images, opts, session.tokens + [], token,
                     Drawing(0, greedy, rng, session.images, 0));
      return [], Some(Finished), rng', mode, asked;
    }
    ghost var heard := listener.wishes;
    if Speculates(session.network, opts) {
      more, end, rng' := SpeculativeStep(session, listener, opts, token, greedy, left, rng');
    } else {
      more, end := PlainStep(session, listener, opts, token);
    }
    asked := asked + listener.wishes[|heard|..];
  }

  /** How the tokens of a call came about. Without speculation they are token-by-token decoding under the modes drawn,
      all of it when the call ended by itself. */
  ghost predicate Traced(m: Network, images: seq<Span>, opts: Options, start: seq<Token>, seed: Rng, allowance: nat,
                          out: seq<Token>, end: Ending, ws: seq<Drawing>, answers: seq<bool>) {
    && Drawings(m, images, opts, start, seed, out, ws) && AsAsked(m, opts, ws, answers)
    && (end.Finished? || end.ContextFull? ==> |out| == allowance || StopDrawn(m, images, opts, start + out))
    && (!Speculates(m, opts) ==> out == Decoded(m, images, opts, start, seed, Modes(ws)))
    && (!Speculates(m, opts) && (end.Finished? || end.ContextFull?) ==>
       forall ms: seq<bool> :: Modes(ws) <= ms && |ms| == allowance ==>
         Decoded(m, images, opts, start, seed, ms) == out)
  }

  lemma TracedAtEnd(m: Network, images: seq<Span>, opts: Options, start: seq<Token>, seed: Rng, allowance: nat,
          out: seq<Token>, end: Ending, ws: seq<Drawing>, answers: seq<bool>)
    requires Drawings(m, images, opts, start, seed, out, ws) && AsAsked(m, opts, ws, answers)
    requires NoStops(m, opts, out) && |out| <= allowance
    requires end.Finished? || end.ContextFull? ==> |out| == allowance || StopDrawn(m, images, opts, start + out)
    requires !Speculates(m, opts) && |ws| > |out| ==>
             Stops(m, opts, Drawn(m, opts, start + out, ws[|out|]).0) && |out| < allowance
    requires !Speculates(m, opts) && |ws| == |out| && (end.Finished? || end.ContextFull?) ==> |out| == allowance
    ensures Traced(m, images, opts, start, seed, allowance, out, end, ws, answers)
  {
    hide Drawn, Stops, Speculates, StopDrawn, AsAsked;
    if !Speculates(m, opts) {
      assert start + out[..0] == start && out[0..] == out;
      DecodedFrom(m, images, opts, start, seed, out, ws, Modes(ws));
      if end.Finished? || end.ContextFull? {
        forall ms: seq<bool> | Modes(ws) <= ms && |ms| == allowance
          ensures Decoded(m, images, opts, start, seed, ms) == out
        {
          DecodedFrom(m, images, opts, start, seed, out, ws, ms);
        }
      }
    }
  }

  lemma DecodedFrom(m: Network, images: seq<Span>, opts: Options, start: seq<Token>, seed: Rng, out: seq<Token>,
          ws: seq<Drawing>, ms: seq<bool>)
    requires Drawings(m, images, opts, start, seed, out, ws) && !Speculates(m, opts) && NoStops(m, opts, out)
    requires Modes(ws) <= ms && (|ws| == |out| ==> |ms| == |out|)
    requires |ws| > |out| ==> Stops(m, opts, Drawn(m, opts, start + out, ws[|out|]).0)
    ensures Decoded(m, images, opts, start, seed, ms) == out
  {
    hide Drawn, Stops, Speculates;
    DrawnIsDecoded(m, images, opts, start, seed, out, ws, ms, 0);
    assert start + out[..0] == start && out[0..] == out && ms[0..] == ms;
  }

  /** With no greedy mode and no speculation, a call that ends by itself returns the whole sampled run. */
  lemma NeverGreedy(m: Network, images: seq<Span>, opts: Options, start: seq<Token>, seed: Rng, allowance: nat,
          out: seq<Token>, end: Ending, ws: seq<Drawing>, answers: seq<bool>)
    requires Traced(m, images, opts, start, seed, allowance, out, end, ws, answers) && !Speculates(m, opts)
    requires (end.Finished? || end.ContextFull?) && |ws| <= allowance && forall j :: 0 <= j < |ws| ==> !ws[j].greedy
    ensures out == Decoded(m, images, opts, start, seed, seq(allowance, i => false))
  {
    hide Drawings, Decoded, StopDrawn, AsAsked;
    assert Modes(ws) <= seq(allowance, i => false);
  }

  /** Under sampling with speculation any images will do: what was drafted is not known. */
  lemma StopAnyhow(m: Network, a: seq<Span>, b: seq<Span>, opts: Options, s: seq<Token>)
    requires StopDrawn(m, a, opts, s) && (a == b || (!opts.greedy && Speculates(m, opts)))
    ensures StopDrawn(m, b, opts, s)
  {
    var t: Token, w: Drawing :| StopsAs(m, a, opts, s, t, w);
    assert StopsAs(m, b, opts, s, t, w.(images := b));
  }

  lemma DrawnAnywhere(m: Network, opts: Options, s: seq<Token>, at: nat, greedy: bool, rng: Rng, images: seq<Span>,
          wish: nat)
    ensures Drawn(m, opts, s, Drawing(at, greedy, rng, images, wish)) ==
            Drawn(m, opts, s, Drawing(0, greedy, rng, images, 0))
  {}

  /** The trace between two turns of the loop. */
  predicate Tracing(m: Network, images: seq<Span>, opts: Options, start: seq<Token>, seed: Rng, out: seq<Token>,
          ws: seq<Drawing>, rng: Rng, here: seq<Span>, answers: seq<bool>) {
    && Drawings(m, images, opts, start, seed, out, ws) && Left(m, opts, start, seed, out, ws, rng)
    && AsAsked(m, opts, ws, answers) && (!Exact(m, opts) && !opts.greedy ==> |answers| == |ws|)
    && (forall j :: 0 <= j < |ws| ==> ws[j].at < |out|)
    && (!Speculates(m, opts) ==> |ws| == |out|) && (!Speculates(m, opts) || opts.greedy || ws == [] ==> here == images)
  }

  lemma NothingDrawn(m: Network, images: seq<Span>, opts: Options, start: seq<Token>, seed: Rng)
    ensures Tracing(m, images, opts, start, seed, [], [], seed, images, [])
  {}

  function Recorded(ws: seq<Drawing>, at: nat, mode: Option<bool>, rng: Rng, images: seq<Span>,
          wish: nat): seq<Drawing>
  {
    match mode
    case None => ws
    case Some(greedy) => ws + [Drawing(at, greedy, rng, images, wish)]
  }

  /** One turn of the loop, as a step of the trace. */
  lemma DrawStep(m: Network, images: seq<Span>, here: seq<Span>, there: seq<Span>, opts: Options, start: seq<Token>,
          seed: Rng, allowance: nat, out: seq<Token>, ws: seq<Drawing>, rng: Rng, mode: Option<bool>,
          more: seq<Token>, end: Option<Ending>, rng': Rng, answers: seq<bool>, asked: seq<bool>)
    requires Tracing(m, images, opts, start, seed, out, ws, rng, here, answers)
    requires AskedFor(m, opts, mode, more, end, asked)
    requires DrawnFor(m, here, opts, start + out, rng, mode, more, end, rng') && end != Some(ContextFull)
    requires |out| < allowance && |out + more| <= allowance && NoStops(m, opts, out + more)
    requires end == None ==> more != [] && (!Speculates(m, opts) || opts.greedy ==> there == here)
    ensures var ws' := Recorded(ws, |out|, mode, rng, here, |answers|);
            if end == None then Tracing(m, images, opts, start, seed, out + more, ws', rng', there, answers + asked)
            else Traced(m, images, opts, start, seed, allowance, out + more, end.value, ws', answers + asked)
  {
    hide Drawn, Speculates, StopDrawn, Stops, Drawings, NoStops, Traced, AsAsked, AskedFor, Exact;
    AskedMore(m, opts, ws, answers, |out|, mode, rng, here, more, end, asked);
    if mode == None {
      assert out + more == out;
      TracedAtEnd(m, images, opts, start, seed, allowance, out, end.value, ws, answers + asked);
    } else {
      var w := Drawing(|out|, mode.value, rng, here, |answers|);
      DrawnAnywhere(m, opts, start + out, |out|, mode.value, rng, here, |answers|);
      DrawOnce(m, images, opts, start, seed, out, ws, w, more);
      assert Taken(out + more, |out|) == out;
      assert start + out + more == start + (out + more);
      assert more == [] ==> out + more == out;
      if end == Some(Finished) {
        StopAnyhow(m, here, images, opts, start + (out + more));
      }
      if end.Some? {
        TracedAtEnd(m, images, opts, start, seed, allowance, out + more, end.value, ws + [w], answers + asked);
      }
    }
  }

  /** The loop ends at the allowance. */
  lemma DrawnToTheEnd(m: Network, images: seq<Span>, here: seq<Span>, opts: Options, start: seq<Token>, seed: Rng,
          allowance: nat, out: seq<Token>, ws: seq<Drawing>, rng: Rng, end: Ending,
          answers: seq<bool>)
    requires Tracing(m, images, opts, start, seed, out, ws, rng, here, answers) && NoStops(m, opts, out) &&
             |out| == allowance
    ensures Traced(m, images, opts, start, seed, allowance, out, end, ws, answers)
  {
    hide Drawn, Speculates, StopDrawn, Stops, Drawings, NoStops, Traced, AsAsked, Exact;
    TracedAtEnd(m, images, opts, start, seed, allowance, out, end, ws, answers);
  }

  /** `Continue`. Whenever it does not fail, the session is its starting tokens followed by the returned ones,
      none of them a stop token; it was never rewound below the start nor grown to the end of the context; and
      at a non-positive temperature the result is token-by-token decoding, whatever was speculated. At any
      temperature each token that was drawn is the most likely one or the sampler's, from the seed on. */
  method Continue(session: Session, listener: Listener, opts: Options, seed: Rng) returns (out: seq<Token>, end: Ending,
          ghost ws: seq<Drawing>, ghost answers: seq<bool>)
    requires listener.Halted()
    requires listener.Ready()
    modifies session, listener, listener.dec
    ensures listener.Halted()
    ensures Heard(listener, old(listener.ledger), old(listener.remaining), old(listener.cause), out)
    ensures Orderly(end) ==> Advanced(session, old(session.tokens), old(session.valid), out)
    ensures Outcome(session.network, old(session.images), opts, old(session.tokens),
                    session.ctx - |old(session.tokens)|, out, end)
    ensures Traced(session.network, old(session.images), opts, old(session.tokens), seed,
                   Max(Allowance(opts, session.ctx - |old(session.tokens)|), 0), out, end, ws, answers)
    ensures listener.wishes == old(listener.wishes) + answers
    ensures end.Unsynced? ==> out == [] && !old(session.valid)
    ensures Bounded(session, old(session.lowest), old(session.highest), |old(session.tokens)|, session.ctx - 1)
    ensures InsideKept(session, opts, old(session.tokens), old(session.images), Some(end))
    ensures Excused(session, listener, old(session.failed), Some(end))
    ensures listener.Ready()
  {
    hide Listener.Ready, Inside, NoStops, FollowsPick, Greedy, Outcome, Stops, Traced, Tracing, DrawnFor, Speculates,
         AskedFor, AllSampled;
    var maxTokens := if opts.maxTokens <= 0 then 128 else opts.maxTokens;
    var room := session.ctx - session.Pos();
    var capped := false;
    out, end, ws, answers := [], Finished, [], [];
    ghost var start, images, m := session.tokens, session.images, session.network;
    NothingMore(session, listener);
    NothingYet(m, images, opts, start);
    NothingDrawn(m, images, opts, start, seed);
    if room <= 1 {
      EndsWell(m, images, opts, start, room, out, ContextFull);
      DrawnToTheEnd(m, images, images, opts, start, seed, 0, out, ws, seed, ContextFull, answers);
      return out, ContextFull, ws, answers;
    } else if maxTokens > room - 1 {
      maxTokens, capped := room - 1, true;
    }
    var rng := seed;
    while |out| < maxTokens
      invariant |out| <= maxTokens && end == Finished
      invariant listener.Ready() && listener.Halted()
      invariant Heard(listener, old(listener.ledger), old(listener.remaining), old(listener.cause), out)
      invariant Advanced(session, start, old(session.valid), out) && NoStops(m, opts, out)
      invariant session.valid == (old(session.valid) || out != [])
      invariant opts.greedy ==> FollowsPick(m, images, opts, start, out) && session.images == images
      invariant Tracing(m, images, opts, start, seed, out, ws, rng, session.images, answers)
      invariant listener.wishes == old(listener.wishes) + answers
      invariant Bounded(session, old(session.lowest), old(session.highest), |start|, session.ctx - 1)
      invariant InsideKept(session, opts, start, images, None) && session.failed == old(session.failed)
      decreases maxTokens - |out|
    {
      InsideMore(opts.images, |start|, |start + out|);
      ghost var here := session.images;
      var more, stop, drawn;
      ghost var mode, asked;
      more, stop, drawn, mode, asked := Turn(session, listener, opts, maxTokens - |out|, rng);
      HeardMore(old(listener.ledger), out, more);
      NoStopsAppend(m, opts, out, more);
      assert start + out + more == start + (out + more);
      if opts.greedy {
        FollowsAppend(m, images, opts, start, out, more);
      }
      DrawStep(m, images, here, session.images, opts, start, seed, maxTokens, out, ws, rng, mode, more, stop, drawn,
               answers, asked);
      ws := Recorded(ws, |out|, mode, rng, here, |answers|);
      answers := answers + asked;
      rng := drawn;
      out := out + more;
      if stop.Some? {
        EndsWell(m, images, opts, start, room, out, stop.value);
        return out, stop.value, ws, answers;
      }
    }
    if capped && |out| >= maxTokens {
      end := ContextFull;
    }
    EndsWell(m, images, opts, start, room, out, end);
    DrawnToTheEnd(m, images, session.images, opts, start, seed, maxTokens, out, ws, rng, end,
                  answers);
  }
}
