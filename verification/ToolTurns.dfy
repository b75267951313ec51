/** One assistant turn of the tool loop (toolloop.go, `complete` and `streamCompletion`): rounds of generation
    and think recovery until the decoder has seen enough, the model stops, or the budget is spent. */
module ToolTurns {
  import opened Text
  import opened Markup
  import opened Calls
  import opened Grammar
  import opened Phases
  import opened DecoderState
  import opened Stream
  import opened Completing
  import opened Sessions
  import opened Listening
  import opened Generation

  /** The rendered prompt, the options of the turn and the tokens of the closing tag, if they can be had. */
  datatype Plan = Plan(prompt: seq<Token>, images: seq<Span>, options: Options, closing: Option<seq<Token>>)

  function Budget(options: Options): nat {
    if options.maxTokens <= 0 then 128 else options.maxTokens
  }

  /** Every generated token of the turn is the most likely one after the prompt and all that came before it. */
  predicate Chosen(m: Network, images: seq<Span>, opts: Options, prompt: seq<Token>, ledger: seq<Entry>) {
    if ledger == [] then true
    else
      var init, e := ledger[..|ledger| - 1], ledger[|ledger| - 1];
      && Chosen(m, images, opts, prompt, init)
      && (e.Sampled? ==> e.token == Pick(m, images, opts, prompt + TokensOf(init)))
  }

  lemma OneChosen(m: Network, images: seq<Span>, opts: Options, prompt: seq<Token>, ledger: seq<Entry>, e: Entry)
    ensures Chosen(m, images, opts, prompt, ledger + [e]) ==
            (Chosen(m, images, opts, prompt, ledger) &&
                (e.Sampled? ==> e.token == Pick(m, images, opts, prompt + TokensOf(ledger))))
  {
    hide TokensOf, Pick;
    assert (ledger + [e])[..|ledger|] == ledger;
  }

  lemma {:induction false} ChosenAppend(m: Network, images: seq<Span>, opts: Options, prompt: seq<Token>,
          ledger: seq<Entry>, out: seq<Token>)
    requires Chosen(m, images, opts, prompt, ledger) && FollowsPick(m, images, opts, prompt + TokensOf(ledger), out)
    ensures Chosen(m, images, opts, prompt, ledger + AllSampled(out))
  {
    hide TokensOf, Chosen, Pick, AllSampled;
    if out == [] {
      NoneSampled(ledger);
    } else {
      var init, last := out[..|out| - 1], out[|out| - 1];
      assert out == init + [last];
      assert forall i :: 0 <= i < |init| ==> init[i] == out[i] && init[..i] == out[..i];
      ChosenAppend(m, images, opts, prompt, ledger, init);
      OneMoreSampled(ledger, init, last);
      TokensAppend(ledger, init);
      assert prompt + TokensOf(ledger) + init == prompt + (TokensOf(ledger) + init);
      OneChosen(m, images, opts, prompt, ledger + AllSampled(init), Sampled(last));
    }
  }

  predicate NoneStops(m: Network, opts: Options, ledger: seq<Entry>) {
    forall i :: 0 <= i < |ledger| && ledger[i].Sampled? ==> !Stops(m, opts, ledger[i].token)
  }

  /** A turn without recovery is token-by-token decoding of the prompt, over however many rounds. */
  lemma UnforcedIsGreedy(m: Network, images: seq<Span>, opts: Options, prompt: seq<Token>, ledger: seq<Entry>, k: nat)
    requires Chosen(m, images, opts, prompt, ledger) && NoneStops(m, opts, ledger) && Injections(ledger) == 0
    requires |TokensOf(ledger)| <= k
    ensures TokensOf(ledger) <= Greedy(m, images, opts, prompt, k)
  {
    hide TokensOf, Chosen, Injections, Greedy;
    UnforcedFollows(m, images, opts, prompt, ledger);
    GreedyEnds(m, images, opts, prompt, TokensOf(ledger), k);
  }

  /** And all of it, once the budget is used up or the most likely token stops. */
  lemma UnforcedIsAll(m: Network, images: seq<Span>, opts: Options, prompt: seq<Token>, ledger: seq<Entry>, k: nat)
    requires Chosen(m, images, opts, prompt, ledger) && NoneStops(m, opts, ledger) && Injections(ledger) == 0
    requires |TokensOf(ledger)| == k ||
             (|TokensOf(ledger)| < k && opts.greedy && StopDrawn(m, images, opts, prompt + TokensOf(ledger)))
    ensures TokensOf(ledger) == Greedy(m, images, opts, prompt, k)
  {
    hide TokensOf, Chosen, Injections, Greedy, Pick;
    UnforcedFollows(m, images, opts, prompt, ledger);
    GreedyEnds(m, images, opts, prompt, TokensOf(ledger), k);
  }

  lemma {:induction false} UnforcedFollows(m: Network, images: seq<Span>, opts: Options, prompt: seq<Token>,
          ledger: seq<Entry>)
    requires Chosen(m, images, opts, prompt, ledger) && NoneStops(m, opts, ledger) && Injections(ledger) == 0
    ensures FollowsPick(m, images, opts, prompt, TokensOf(ledger)) && NoStops(m, opts, TokensOf(ledger))
  {
    hide Pick, Stops;
    if ledger != [] {
      var init, e := ledger[..|ledger| - 1], ledger[|ledger| - 1];
      assert forall i :: 0 <= i < |init| ==> init[i] == ledger[i];
      UnforcedFollows(m, images, opts, prompt, init);
      var before := TokensOf(init);
      assert TokensOf(ledger) == before + [e.token];
      assert forall i :: 0 <= i <= |before| ==> (before + [e.token])[..i] == before[..i];
      assert before[..|before|] == before;
    }
  }

  /** The session holds the prompt and every token of the turn, in order. */
  ghost predicate InStep(session: Session, ledger: seq<Entry>, prompt: seq<Token>)
    reads session
  {
    session.tokens == prompt + TokensOf(ledger)
  }

  /** What holds between rounds whatever failed: text, budget and injections agree with the ledger, the budget
      is not overspent, and no stop token was heard. */
  ghost predicate Sound(session: Session, listener: Listener, plan: Plan)
    reads session, listener, listener.dec
  {
    && listener.Ready() && 0 <= listener.remaining && NoneStops(session.network, plan.options, listener.ledger)
  }

  /** The options of a round: what is left of the budget, and the prompt's images if it has any. */
  function RoundOptions(plan: Plan, started: bool, left: int): Options {
    plan.options.(maxTokens := left,
                  images := if started || plan.images != [] then plan.images else plan.options.images)
  }

  /** The images the options name are the prompt's own, and lie inside it. */
  predicate OwnImages(plan: Plan) {
    Inside(plan.images, |plan.prompt|) && (plan.images != [] || plan.options.images == [])
  }

  /** What holds as long as no native call has failed. */
  ghost predicate Aligned(session: Session, ledger: seq<Entry>, plan: Plan, lowest: int, highest: int)
    reads session
  {
    && InStep(session, ledger, plan.prompt)
    && Bounded(session, lowest, highest, |plan.prompt|, Max(|plan.prompt|, session.ctx - 1))
    && (OwnImages(plan) ==> session.images == plan.images)
    && (OwnImages(plan) && plan.options.greedy ==>
       Chosen(session.network, plan.images, plan.options, plan.prompt, ledger))
  }

  /** How a round of generation ended and what had cancelled it by then, what it produced from which images and
      drawings, and what was forced behind it. */
  datatype Round = Round(end: Ending, cause: Cause, out: seq<Token>, images: seq<Span>, ws: seq<Drawing>,
                         answers: seq<bool>, forced: seq<Token>)

  /** The steps of the rounds, in order. */
  function Entries(rounds: seq<Round>): seq<Entry> {
    if rounds == [] then []
    else
      var r := rounds[|rounds| - 1];
      Entries(rounds[..|rounds| - 1]) + AllSampled(r.out) + if r.forced == [] then [] else [Injected(r.forced)]
  }

  /** What a turn depends on. */
  datatype Setting = Setting(m: Network, d: Reader, thinking: bool, tokenText: Token -> Option<string>, plan: Plan,
                             ctx: int, seed: Rng)

  /** A round behind the steps `before`: nothing with the budget spent; else, unless a native call failed, generation
      from the prompt and those steps, drawn from the seed, with what is left of the budget. */
  ghost predicate Follows(x: Setting, before: seq<Entry>, started: bool, r: Round) {
    var s, left := x.plan.prompt + TokensOf(before), Budget(x.plan.options) - |TokensOf(before)|;
    var opts, room := RoundOptions(x.plan, started, left), x.ctx - |s|;
    && (OwnImages(x.plan) ==> r.images == x.plan.images && r.end != SplitsImage)
    && (left <= 0 ==> r.end == Finished && r.out == [])
    && (left > 0 && r.end != Error ==>
       && Outcome(x.m, r.images, opts, s, room, r.out, r.end)
       && Traced(x.m, r.images, opts, s, x.seed, Max(Allowance(opts, room), 0), r.out, r.end, r.ws, r.answers))
  }

  /** The closing tag's tokens can be had, and leave budget and room for more. */
  predicate CanForce(plan: Plan, left: int, room: int) {
    plan.closing.Some? && 0 < |plan.closing.value| < left && |plan.closing.value| < room
  }

  /** What is forced after the steps `played`: the closing tag, exactly when the stanza is still open and it can be. */
  ghost function Recovery(x: Setting, played: seq<Entry>): seq<Token> {
    if StanzaOpen(x.d, x.thinking, Spell(x.tokenText, played)) &&
       CanForce(x.plan, Budget(x.plan.options) - |TokensOf(played)|, x.ctx - |x.plan.prompt + TokensOf(played)|)
    then x.plan.closing.value else []
  }

  /** As long as no native call has failed, every round is generation from where the one before left off, and every
      round but the last is followed by its recovery. */
  ghost predicate Recorded(x: Setting, rounds: seq<Round>, ended: bool) {
    forall i :: 0 <= i < |rounds| && AllOrderly(rounds[..i]) ==> RecordedAt(x, rounds, i, ended)
  }

  ghost predicate RecordedAt(x: Setting, rounds: seq<Round>, i: nat, ended: bool)
    requires i < |rounds|
  {
    var before := Entries(rounds[..i]);
    && Follows(x, before, i > 0, rounds[i])
    && ((i < |rounds| - 1 || !ended) && Orderly(rounds[i].end) ==>
       rounds[i].forced == Recovery(x, before + AllSampled(rounds[i].out)))
  }

  /** One more round, the last or not. */
  lemma OneMoreRound(x: Setting, rounds: seq<Round>, r: Round, ended: bool)
    requires Recorded(x, rounds, false)
    requires AllOrderly(rounds) ==> Follows(x, Entries(rounds), rounds != [], r)
    requires AllOrderly(rounds) && Orderly(r.end) && !ended ==>
             r.forced == Recovery(x, Entries(rounds) + AllSampled(r.out))
    ensures Recorded(x, rounds + [r], ended)
  {
    hide Follows, Recovery, Entries;
    var all := rounds + [r];
    forall i | 0 <= i < |all| && AllOrderly(all[..i]) ensures RecordedAt(x, all, i, ended) {
      if i < |rounds| {
        assert all[..i] == rounds[..i];
        assert RecordedAt(x, rounds, i, false);
      } else {
        assert all[..i] == rounds;
      }
    }
  }

  lemma OneMoreEntries(rounds: seq<Round>, r: Round)
    ensures Entries(rounds + [r]) ==
            Entries(rounds) + AllSampled(r.out) + if r.forced == [] then [] else [Injected(r.forced)]
  {
    assert (rounds + [r])[..|rounds|] == rounds;
  }

  /** Why generation ended by itself: the budget is used up, or a stop token came. */
  lemma EndedWhy(x: Setting, before: seq<Entry>, started: bool, r: Round)
    requires Follows(x, before, started, r) && r.end == Finished
    ensures Budget(x.plan.options) - |TokensOf(before)| - |r.out| <= 0 ||
            StopDrawn(x.m, r.images, x.plan.options, x.plan.prompt + TokensOf(before) + r.out)
  {
    hide TokensOf, Drawings, AsAsked, Greedy, Decoded, NoStops, FollowsPick;
    var s, left := x.plan.prompt + TokensOf(before), Budget(x.plan.options) - |TokensOf(before)|;
    var opts := RoundOptions(x.plan, started, left);
    if left > 0 && |r.out| < left {
      StopSame(x.m, r.images, opts, x.plan.options, s + r.out);
    }
  }

  /** Why a successful turn ends: its text needs no more, the budget is used up, or a stop token came behind what was
      generated. Left to itself at a non-positive temperature, it is all of token-by-token decoding. */
  ghost predicate EndsFor(x: Setting, stopped: bool, remaining: int, rounds: seq<Round>) {
    var ledger, opts := Entries(rounds), x.plan.options;
    && (stopped || remaining == 0 ||
       (rounds != [] && StopDrawn(x.m, rounds[|rounds| - 1].images, opts, x.plan.prompt + TokensOf(ledger))))
    && (!stopped && opts.greedy && OwnImages(x.plan) && Injections(ledger) == 0 ==>
       TokensOf(ledger) == Greedy(x.m, x.plan.images, opts, x.plan.prompt, Budget(opts)))
  }

  lemma WhyFinished(x: Setting, rounds: seq<Round>, r: Round, stopped: bool, remaining: int)
    requires AllOrderly(rounds) ==> Follows(x, Entries(rounds), rounds != [], r)
    requires r.end == Finished && r.forced == []
    requires var ledger := Entries(rounds + [r]);
             && remaining == Budget(x.plan.options) - |TokensOf(ledger)| && 0 <= remaining
             && NoneStops(x.m, x.plan.options, ledger)
             && (AllOrderly(rounds + [r]) && OwnImages(x.plan) && x.plan.options.greedy ==>
                Chosen(x.m, x.plan.images, x.plan.options, x.plan.prompt, ledger))
    ensures AllOrderly(rounds + [r]) ==> EndsFor(x, stopped, remaining, rounds + [r])
  {
    hide TokensOf, Injections, Chosen, Greedy, NoneStops, Entries, StopDrawn;
    OneMoreEnd(rounds, r);
    OneMoreEntries(rounds, r);
    if AllOrderly(rounds + [r]) {
      var before, ledger, opts := Entries(rounds), Entries(rounds + [r]), x.plan.options;
      assert ledger == before + AllSampled(r.out);
      TokensAppend(before, r.out);
      assert x.plan.prompt + TokensOf(before) + r.out == x.plan.prompt + TokensOf(ledger);
      EndedWhy(x, before, rounds != [], r);
      assert (rounds + [r])[|rounds|] == r;
      assert OwnImages(x.plan) ==> r.images == x.plan.images by {
        hide OwnImages;
      }
      if opts.greedy && OwnImages(x.plan) && Injections(ledger) == 0 {
        UnforcedIsAll(x.m, x.plan.images, opts, x.plan.prompt, ledger, Budget(opts));
      }
    }
  }

  lemma StoppedEnds(x: Setting, remaining: int, rounds: seq<Round>)
    ensures EndsFor(x, true, remaining, rounds)
  {}

  lemma AlignedFacts(session: Session, ledger: seq<Entry>, plan: Plan, lowest: int, highest: int)
    requires Aligned(session, ledger, plan, lowest, highest)
    ensures session.tokens == plan.prompt + TokensOf(ledger)
    ensures OwnImages(plan) && plan.options.greedy ==>
              Chosen(session.network, plan.images, plan.options, plan.prompt, ledger)
  {
    hide Chosen, TokensOf, OwnImages;
  }

  /** What the decoder's signal makes of the recovery. */
  lemma StanzaSeen(x: Setting, listener: Listener)
    requires listener.Ready() && listener.budget == Budget(x.plan.options)
    requires listener.dec.reader == x.d && listener.dec.thinking == x.thinking && listener.tokenText == x.tokenText
    ensures Recovery(x, listener.ledger)
         == if listener.dec.ToolStanzaInThinking() &&
               CanForce(x.plan, listener.remaining, x.ctx - |x.plan.prompt + TokensOf(listener.ledger)|)
            then x.plan.closing.value else []
  {
    hide Listener.Ready, Spell, TokensOf, Injections, StanzaOpen, CanForce, Complete, Contains;
    listener.Settled();
  }

  lemma StopSame(m: Network, images: seq<Span>, round: Options, opts: Options, s: seq<Token>)
    requires StopDrawn(m, images, round, s)
    requires round.exclude == opts.exclude && round.greedy == opts.greedy && round.stopOnEos == opts.stopOnEos
    ensures StopDrawn(m, images, opts, s)
  {
    var t: Token, w: Drawing :| StopsAs(m, images, round, s, t, w);
    assert StopsAs(m, images, opts, s, t, w);
  }

  predicate AllOrderly(rounds: seq<Round>) {
    forall i :: 0 <= i < |rounds| ==> Orderly(rounds[i].end)
  }

  /** The rounds of a turn that is reported as a success: each but the last was cancelled for a recovery, and the last
      ended by itself or was cancelled with the turn complete. */
  predicate Passed(rounds: seq<Round>) {
    && rounds != []
    && (forall i :: 0 <= i < |rounds| - 1 ==> rounds[i].end != Finished && rounds[i].cause == ThinkRecovery)
    && (var last := rounds[|rounds| - 1]; last.end == Finished || last.cause == TurnComplete)
  }

  /** A round whose last call failed after the turn was complete. */
  function HiddenFailure(): Round {
    Round(Error, TurnComplete, [], [], [], [], [])
  }

  /** A success hides the failure of a native call exactly when the decoder had cancelled that round, and such turns
      are. */
  lemma HiddenFailures(rounds: seq<Round>)
    requires Passed(rounds)
    ensures !AllOrderly(rounds) <==>
            exists i :: 0 <= i < |rounds| && !Orderly(rounds[i].end) && rounds[i].cause != Running
    ensures Passed([HiddenFailure()]) && !AllOrderly([HiddenFailure()])
  {
    assert [HiddenFailure()][0] == HiddenFailure();
    if i :| 0 <= i < |rounds| && !Orderly(rounds[i].end) {
      assert rounds[i].cause != Running;
    }
  }

  /** Why a turn fails: a native call failed, the caller's own context ended, the closing tag cannot be had, or a round
      that nothing had cancelled ran into the end of the context, found no checkpoint or would have split an image. */
  ghost predicate Fails(session: Session, listener: Listener, plan: Plan, last: Round)
    reads session, listener
  {
    || session.failed || listener.parentDone || (plan.closing.None? && last.cause == ThinkRecovery)
    || (last.cause == Running && (last.end == ContextFull || last.end == Unsynced || last.end == SplitsImage))
  }

  /** The prompt is synchronized: nothing has been generated. */
  method Start(session: Session, listener: Listener, plan: Plan) returns (ok: bool)
    requires listener.ledger == []
    modifies session
    ensures ok ==> session.valid && Aligned(session, listener.ledger, plan, old(session.lowest), old(session.highest))
    ensures session.failed == (old(session.failed) || !ok)
  {
    assert plan.prompt + TokensOf(listener.ledger) == plan.prompt;
    ok := session.SyncMultimodal(plan.prompt, plan.images);
  }

  ghost function SettingOf(session: Session, listener: Listener, plan: Plan, seed: Rng): Setting {
    Setting(session.network, listener.dec.reader, listener.dec.thinking, listener.tokenText, plan, session.ctx, seed)
  }

  /** What a round of generation leaves of the listener. */
  ghost predicate Produced(listener: Listener, was: seq<Entry>, budget: int, end: Ending, r: Round)
    reads listener
  {
    && r.end == end && r.forced == [] && r.cause == listener.cause && (r.out == [] ==> listener.cause == Running)
    && listener.ledger == was + AllSampled(r.out) && listener.remaining == budget - |r.out|
  }

  /** Generation goes on from the session with what is left of the budget. */
  method Resume(session: Session, listener: Listener, plan: Plan, started: bool, seed: Rng, ghost lowest: int,
          ghost highest: int)
      returns (end: Ending, ghost r: Round)
    requires listener.remaining > 0 && listener.cause == Running && listener.budget == Budget(plan.options)
    requires listener.Halted() && Sound(session, listener, plan)
    modifies session, listener, listener.dec
    ensures Produced(listener, old(listener.ledger), old(listener.remaining), end, r)
    ensures old(Aligned(session, listener.ledger, plan, lowest, highest)) ==>
            Follows(SettingOf(session, listener, plan, seed), old(listener.ledger), started, r)
    ensures old(Aligned(session, listener.ledger, plan, lowest, highest)) && Orderly(end) ==>
            Aligned(session, listener.ledger, plan, lowest, highest)
    ensures Excused(session, listener, old(session.failed), Some(end))
    ensures listener.Halted() && Sound(session, listener, plan)
  {
    hide Listener.Listens, Chosen, Inside, NoStops, FollowsPick, TokensOf, Greedy, Injections, Stops, NoneStops,
         Traced, Outcome, Spell, Contains;
    var opts := RoundOptions(plan, started, listener.remaining);
    ghost var was, base, network, images := listener.ledger, session.tokens, session.network, session.images;
    ghost var own := Aligned(session, listener.ledger, plan, lowest, highest) && OwnImages(plan);
    var produced;
    ghost var ws, answers;
    produced, end, ws, answers := Continue(session, listener, opts, seed);
    r := Round(end, listener.cause, produced, images, ws, answers, []);
    OutcomeFacts(network, images, opts, base, session.ctx - |base|, produced, end);
    NoneStopsAppend(network, plan.options, opts, was, produced);
    TokensAppend(was, produced);
    assert plan.prompt + TokensOf(was) + produced == plan.prompt + (TokensOf(was) + produced);
    if own && plan.options.greedy {
      SamePicks(network, plan.images, plan.options, opts, base, produced);
      ChosenAppend(network, plan.images, plan.options, plan.prompt, was, produced);
    }
    if own {
      InsideMore(plan.images, |plan.prompt|, |base|);
    }
  }

  lemma OutcomeFacts(m: Network, images: seq<Span>, opts: Options, start: seq<Token>, room: int, out: seq<Token>,
          end: Ending)
    requires Outcome(m, images, opts, start, room, out, end)
    ensures NoStops(m, opts, out) && (opts.greedy ==> FollowsPick(m, images, opts, start, out))
    ensures |out| <= Max(Allowance(opts, room), 0)
  {
    hide NoStops, FollowsPick, Greedy;
  }

  lemma NoneStopsAppend(m: Network, opts: Options, round: Options, was: seq<Entry>, out: seq<Token>)
    requires NoneStops(m, opts, was) && NoStops(m, round, out) && round.stopOnEos == opts.stopOnEos
    ensures NoneStops(m, opts, was + AllSampled(out))
  {}

  lemma SamePicks(m: Network, images: seq<Span>, opts: Options, round: Options, base: seq<Token>, out: seq<Token>)
    requires FollowsPick(m, images, round, base, out) && round.exclude == opts.exclude
    ensures FollowsPick(m, images, opts, base, out)
  {}

  /** The recovery callback and the recording of what it forced: all of the closing tag's tokens when they can be
      forced, else nothing. */
  method Recover(session: Session, listener: Listener, plan: Plan, ghost lowest: int,
          ghost highest: int) returns (ok: bool, ghost forced: seq<Token>)
    requires listener.dec.ToolStanzaInThinking() && Sound(session, listener, plan)
    modifies session, listener, listener.dec
    ensures ok ==> forced == if CanForce(plan, old(listener.remaining), session.ctx - |old(session.tokens)|)
                             then plan.closing.value else []
    ensures !ok ==> forced == []
    ensures listener.ledger == old(listener.ledger) + if forced == [] then [] else [Injected(forced)]
    ensures listener.remaining == old(listener.remaining) - |forced| && listener.stopped == old(listener.stopped)
    ensures listener.cause == old(listener.cause) && listener.parentDone == old(listener.parentDone)
    ensures session.failed == (old(session.failed) || (!ok && plan.closing.Some?))
    ensures ok && old(Aligned(session, listener.ledger, plan, lowest, highest)) ==>
            Aligned(session, listener.ledger, plan, lowest, highest)
    ensures Sound(session, listener, plan)
  {
    hide Listener.Ready, Chosen, Inside, TokensOf, Injections, Stops;
    forced := [];
    assert listener.ledger + [] == listener.ledger;
    if plan.closing.None? {
      return false, [];
    }
    var ids := plan.closing.value;
    var room := session.ctx - session.Pos();
    if |ids| == 0 || |ids| >= listener.remaining || |ids| >= room {
      return true, [];
    }
    ok := Force(session, ids);
    if ok {
      OneEntry(listener.tokenText, listener.ledger, Injected(ids));
      OneChosen(session.network, plan.images, plan.options, plan.prompt, listener.ledger, Injected(ids));
      assert plan.prompt + TokensOf(listener.ledger) + ids == plan.prompt + (TokensOf(listener.ledger) + ids);
      NotStoppedNow(listener);
      listener.RecordInjection(ids);
      forced := ids;
    }
  }

  lemma NotStoppedNow(listener: Listener)
    requires listener.dec.ToolStanzaInThinking() && listener.Ready()
    ensures !listener.stopped
  {
    listener.NotStopped();
  }

  method Force(session: Session, ids: seq<Token>) returns (ok: bool)
    modifies session
    ensures session.failed == (old(session.failed) || !ok)
    ensures ok ==> session.tokens == old(session.tokens) + ids && session.images == old(session.images)
    ensures ok ==> Bounded(session, old(session.lowest), old(session.highest), |old(session.tokens)|,
                           |old(session.tokens)| + |ids|)
  {
    var i := 0;
    assert session.tokens == session.tokens + ids[..0];
    while i < |ids|
      invariant i <= |ids| && session.tokens == old(session.tokens) + ids[..i] && session.images == old(session.images)
      invariant session.lowest == old(session.lowest) &&
                session.highest <= Max(old(session.highest), |old(session.tokens)| + i) &&
                session.failed == old(session.failed)
    {
      ok := session.Eval(ids[i]);
      if !ok {
        return;
      }
      assert ids[..i] + [ids[i]] == ids[..i + 1];
      i := i + 1;
    }
    assert ids[..i] == ids;
    ok := true;
  }

  /** One round: nothing with the budget spent, else generation from the prompt or from where it stopped. */
  method Generate(session: Session, listener: Listener, plan: Plan, started: bool, seed: Rng, ghost lowest: int,
          ghost highest: int)
      returns (end: Ending, ghost r: Round)
    requires listener.cause == Running && listener.budget == Budget(plan.options)
    requires !started ==>
             listener.ledger == [] && session.lowest == lowest && session.highest == highest && listener.remaining > 0
    requires listener.Halted() && Sound(session, listener, plan)
    modifies session, listener, listener.dec
    ensures Produced(listener, old(listener.ledger), old(listener.remaining), end, r)
    ensures (started ==> old(Aligned(session, listener.ledger, plan, lowest, highest))) ==>
            Follows(SettingOf(session, listener, plan, seed), old(listener.ledger), started, r)
    ensures (started ==> old(Aligned(session, listener.ledger, plan, lowest, highest))) && Orderly(end) ==>
            Aligned(session, listener.ledger, plan, lowest, highest)
    ensures Excused(session, listener, old(session.failed), Some(end))
    ensures listener.Halted() && Sound(session, listener, plan)
  {
    hide Listener.Ready, NoneStops, Aligned, Follows, TokensOf, AllSampled;
    NotYet(SettingOf(session, listener, plan, seed), listener, started);
    NoneSampled(listener.ledger);
    if listener.remaining <= 0 {
      return Finished, Round(Finished, Running, [], plan.images, [], [], []);
    }
    if !started {
      var ok := Start(session, listener, plan);
      if !ok {
        return Error, Round(Error, Running, [], plan.images, [], [], []);
      }
    }
    end, r := Resume(session, listener, plan, started, seed, lowest, highest);
  }

  /** With the budget spent there is nothing to generate, and a prompt that cannot be synchronized ends the turn. */
  lemma NotYet(x: Setting, listener: Listener, started: bool)
    requires listener.Ready() && listener.budget == Budget(x.plan.options)
    ensures listener.remaining <= 0 ==>
              Follows(x, listener.ledger, started, Round(Finished, Running, [], x.plan.images, [], [], []))
    ensures listener.remaining > 0 ==>
              Follows(x, listener.ledger, started, Round(Error, Running, [], x.plan.images, [], [], []))
  {
    hide Listener.Listens, TokensOf, Spell, Injections, Contains, Outcome, Traced;
  }

  /** Whether the caller's own context is still open. */
  method ParentOpen(listener: Listener) returns (open: bool)
    requires listener.Halted()
    requires listener.Ready()
    modifies listener`parentDone
    ensures listener.Halted() && (open <==> !listener.parentDone) && (old(listener.parentDone) ==> !open)
    ensures listener.Ready()
  {
    var _ := listener.Cancelled();
    open := !listener.parentDone;
  }

  /** What a round leads to. */
  datatype Move = Again | Over | Failing

  predicate AllAgain(rounds: seq<Round>) {
    forall i :: 0 <= i < |rounds| ==> rounds[i].end != Finished && rounds[i].cause == ThinkRecovery
  }

  lemma OneMoreAgain(rounds: seq<Round>, r: Round)
    requires AllAgain(rounds)
    ensures r.end != Finished && r.cause == ThinkRecovery ==> AllAgain(rounds + [r])
    ensures r.end == Finished || r.cause == TurnComplete ==> Passed(rounds + [r])
  {
    var all := rounds + [r];
    assert all[|rounds|] == r && forall i :: 0 <= i < |rounds| ==> all[i] == rounds[i];
  }

  /** One round and what follows it: the recovery, when the round was cancelled for one. */
  method Play(session: Session, listener: Listener, plan: Plan, started: bool, seed: Rng, ghost lowest: int,
          ghost highest: int)
      returns (move: Move, ghost r: Round)
    requires !listener.stopped && listener.budget == Budget(plan.options)
    requires !started ==>
             listener.ledger == [] && session.lowest == lowest && session.highest == highest && listener.remaining > 0
    requires Sound(session, listener, plan)
    modifies session, listener, listener.dec
    ensures match move
            case Again =>
              && r.end != Finished && r.cause == ThinkRecovery && !listener.stopped
              && listener.remaining < old(listener.remaining)
            case Over => r.forced == [] && (r.end == Finished || (r.cause == TurnComplete && listener.stopped))
            case Failing => r.forced == []
    ensures listener.ledger ==
            old(listener.ledger) + AllSampled(r.out) + if r.forced == [] then [] else [Injected(r.forced)]
    ensures (started ==> old(Aligned(session, listener.ledger, plan, lowest, highest))) ==>
            Follows(SettingOf(session, listener, plan, seed), old(listener.ledger), started, r)
    ensures (started ==> old(Aligned(session, listener.ledger, plan, lowest, highest))) && Orderly(r.end) ==>
            && (move != Failing ==> Aligned(session, listener.ledger, plan, lowest, highest))
            && (move == Again ==>
               r.forced == Recovery(SettingOf(session, listener, plan, seed), old(listener.ledger) + AllSampled(r.out)))
    ensures move == Failing ==> Fails(session, listener, plan, r)
    ensures (old(session.failed) || r.end == Error ==> session.failed) &&
            (move != Failing && session.failed ==> old(session.failed) || r.end == Error)
    ensures listener.Halted() && Sound(session, listener, plan)
  {
    hide Listener.Ready, NoneStops, Aligned, Follows, Recovery, TokensOf, CanForce;
    listener.NextRound();
    ghost var x := SettingOf(session, listener, plan, seed);
    ghost var was := listener.ledger;
    var end;
    end, r := Generate(session, listener, plan, started, seed, lowest, highest);
    StanzaSeen(x, listener);
    if Aligned(session, listener.ledger, plan, lowest, highest) {
      AlignedFacts(session, listener.ledger, plan, lowest, highest);
    }
    ghost var forced;
    move, forced := Pursue(session, listener, plan, end, lowest, highest);
    SameRound(x, was, started, r, forced);
    r := r.(forced := forced);
  }

  /** What follows a round: the end, a failure, or another round behind the recovery. */
  method Pursue(session: Session, listener: Listener, plan: Plan, end: Ending, ghost lowest: int, ghost highest: int)
      returns (move: Move, ghost forced: seq<Token>)
    requires listener.Halted() && Sound(session, listener, plan)
    modifies session, listener, listener.dec
    ensures match move
            case Again =>
              && end != Finished && listener.cause == ThinkRecovery && !listener.stopped
              && forced == if old(listener.dec.ToolStanzaInThinking()) &&
                              CanForce(plan, old(listener.remaining), session.ctx - |old(session.tokens)|)
                           then plan.closing.value else []
            case Over => forced == [] && (end == Finished || (listener.cause == TurnComplete && listener.stopped))
            case Failing => forced == []
    ensures listener.ledger == old(listener.ledger) + if forced == [] then [] else [Injected(forced)]
    ensures listener.remaining == old(listener.remaining) - |forced| && listener.cause == old(listener.cause)
    ensures old(listener.parentDone) ==> listener.parentDone
    ensures (old(session.failed) ==> session.failed) && (move != Failing ==> session.failed == old(session.failed))
    ensures move == Failing ==>
            session.failed || listener.parentDone || (end != Finished && listener.cause == Running) ||
            (plan.closing.None? && listener.cause == ThinkRecovery)
    ensures move != Failing && old(Aligned(session, listener.ledger, plan, lowest, highest)) ==>
            Aligned(session, listener.ledger, plan, lowest, highest)
    ensures listener.Halted() && Sound(session, listener, plan)
  {
    hide Listener.Ready, NoneStops, Aligned, TokensOf, CanForce;
    forced := [];
    assert listener.ledger + [] == listener.ledger;
    if end == Finished {
      return Over, [];
    }
    var open := ParentOpen(listener);
    if !open {
      return Failing, [];
    }
    if listener.cause == TurnComplete {
      return Over, [];
    }
    if listener.cause != ThinkRecovery {
      return Failing, [];
    }
    move := Again;
    if listener.dec.ToolStanzaInThinking() {
      var recovered;
      recovered, forced := Recover(session, listener, plan, lowest, highest);
      move := if recovered then Again else Failing;
    }
  }

  lemma SameRound(x: Setting, before: seq<Entry>, started: bool, r: Round, forced: seq<Token>)
    ensures Follows(x, before, started, r) ==> Follows(x, before, started, r.(forced := forced))
  {
    hide TokensOf, Traced, Outcome;
  }

  lemma WhyOver(x: Setting, rounds: seq<Round>, r: Round, stopped: bool, remaining: int)
    requires AllOrderly(rounds + [r]) && (r.end == Finished || stopped)
    requires Follows(x, Entries(rounds), rounds != [], r) && r.forced == []
    requires var ledger := Entries(rounds + [r]);
             && remaining == Budget(x.plan.options) - |TokensOf(ledger)| && 0 <= remaining
             && NoneStops(x.m, x.plan.options, ledger)
             && (OwnImages(x.plan) && x.plan.options.greedy ==>
                Chosen(x.m, x.plan.images, x.plan.options, x.plan.prompt, ledger))
    ensures EndsFor(x, stopped, remaining, rounds + [r])
  {
    hide TokensOf, Chosen, NoneStops, Entries, EndsFor, Follows;
    if stopped {
      StoppedEnds(x, remaining, rounds + [r]);
    } else {
      WhyFinished(x, rounds, r, stopped, remaining);
    }
  }

  predicate AnyError(rounds: seq<Round>) {
    exists i :: 0 <= i < |rounds| && rounds[i].end == Error
  }

  lemma OneMoreError(rounds: seq<Round>, round: Round)
    ensures AnyError(rounds + [round]) <==> AnyError(rounds) || round.end == Error
  {
    var all := rounds + [round];
    assert all[|rounds|] == round;
    if i :| 0 <= i < |rounds| && rounds[i].end == Error {
      assert all[i] == rounds[i];
    }
    if i :| 0 <= i < |all| && all[i].end == Error {
      assert i < |rounds| ==> all[i] == rounds[i];
    }
  }

  lemma OneMoreEnd(rounds: seq<Round>, round: Round)
    ensures AllOrderly(rounds + [round]) <==> AllOrderly(rounds) && Orderly(round.end)
  {
    assert forall i :: 0 <= i < |rounds| ==> (rounds + [round])[i] == rounds[i];
    assert (rounds + [round])[|rounds|] == round;
  }

  lemma NoStopYet(m: Network, opts: Options)
    ensures NoneStops(m, opts, [])
  {}

  lemma NothingRecorded(x: Setting)
    ensures Recorded(x, [], false) && Entries([]) == []
  {}

  /** `streamCompletion` over `complete`. Its text spells the ledger and its events show exactly the verdict on
      that text; the ledger never overspends the budget, forces the closing tag at most once and holds no stop
      token. The rounds make up the ledger. Unless a native call failed, each is generation from where the one before
      left off and is followed by its recovery, if one is due; the session is the prompt followed by the ledger's
      tokens, was never cut into the prompt and stayed short of the context; and the turn ends because its text needs no
      more, because the budget is used up or because a stop token came. */
  method CompleteTurn(session: Session, listener: Listener, plan: Plan, seed: Rng) returns (ok: bool,
          ghost rounds: seq<Round>)
    requires listener.Halted() && !listener.stopped
    requires listener.ledger == [] && listener.remaining == listener.budget == Budget(plan.options)
    requires listener.Ready()
    modifies session, listener, listener.dec
    ensures listener.Balanced() && 0 <= listener.remaining
    ensures NoneStops(session.network, plan.options, listener.ledger)
    ensures ok ==> listener.dec.fullText == listener.text && listener.forwarded == listener.dec.seen.emitted
    ensures ok ==> Shows(listener.dec.reader, listener.forwarded,
                         DecideAll(listener.dec.reader, listener.dec.thinking, listener.text))
    ensures ok ==> Passed(rounds)
    ensures rounds != [] && (!ok ==> Fails(session, listener, plan, rounds[|rounds| - 1]))
    ensures (AnyError(rounds) ==> session.failed) && (ok && session.failed ==> old(session.failed) || AnyError(rounds))
    ensures listener.ledger == Entries(rounds) && Recorded(SettingOf(session, listener, plan, seed), rounds, true)
    ensures listener.stopped <==> Complete(listener.dec.reader, listener.dec.thinking, listener.text)
    ensures ok && AllOrderly(rounds) ==>
            Aligned(session, listener.ledger, plan, old(session.lowest), old(session.highest))
    ensures ok && AllOrderly(rounds) ==> EndsFor(SettingOf(session, listener, plan, seed), listener.stopped,
                                                 listener.remaining, rounds)
  {
    hide Listener.Listens, NoneStops, Aligned, Shows, DecideAll, Follows, Recovery, Recorded, EndsFor, Spell,
         TokensOf, Injections, Contains, Complete, Entries;
    ghost var lowest, highest := session.lowest, session.highest;
    ghost var x := SettingOf(session, listener, plan, seed);
    var started := false;
    rounds := [];
    NoStopYet(session.network, plan.options);
    NothingRecorded(x);
    var move := Again;
    while move == Again
      invariant listener.ledger == Entries(rounds) && Recorded(x, rounds, move != Again)
      invariant !started ==>
                listener.ledger == [] && session.lowest == lowest && session.highest == highest &&
                    listener.remaining > 0 && rounds == []
      invariant (started <==> rounds != []) && (move != Again ==> started)
      invariant move == Again ==> !listener.stopped && AllAgain(rounds)
      invariant started && move == Failing ==> Fails(session, listener, plan, rounds[|rounds| - 1])
      invariant AnyError(rounds) ==> session.failed
      invariant move != Failing && session.failed ==> old(session.failed) || AnyError(rounds)
      invariant move == Over ==> Passed(rounds) && (AllOrderly(rounds) ==>
                EndsFor(x, listener.stopped, listener.remaining, rounds))
      invariant started && AllOrderly(rounds) && move != Failing ==>
                Aligned(session, listener.ledger, plan, lowest, highest)
      invariant listener.Halted() && Sound(session, listener, plan)
      decreases move == Again, listener.remaining
    {
      ghost var r;
      move, r := Play(session, listener, plan, started, seed, lowest, highest);
      started := true;
      OneMoreEnd(rounds, r);
      OneMoreError(rounds, r);
      OneMoreRound(x, rounds, r, move != Again);
      OneMoreEntries(rounds, r);
      OneMoreAgain(rounds, r);
      if move == Over {
        ghost var all := rounds + [r];
        if AllOrderly(all) {
          AlignedFacts(session, listener.ledger, plan, lowest, highest);
          WhyOver(x, rounds, r, listener.stopped, listener.remaining);
        }
      }
      rounds := rounds + [r];
    }
    listener.Settled();
    ok := move == Over;
    if ok {
      listener.Close();
    }
  }
}
