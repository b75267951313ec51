/** What a tool turn does with each generated token (toolloop.go, the closures of `streamCompletion` and
    `complete`): the token's text goes through the stream decoder, which says when to stop or recover. */
module Listening {
  import opened Text
  import opened Markup
  import opened Calls
  import opened Grammar
  import opened Phases
  import opened DecoderState
  import opened DecoderSteps
  import opened Keeping
  import opened Completing
  import opened Stream
  import opened Sessions

  const INJECT := THINK_END + "\n\n"

  /** Why the round's context was cancelled. */
  datatype Cause = Running | TurnComplete | ThinkRecovery

  /** One step of the turn: a token the model produced, or the closing tag forced into its reasoning. */
  datatype Entry = Sampled(token: Token) | Injected(tokens: seq<Token>)

  function TokensOf(ledger: seq<Entry>): seq<Token> {
    if ledger == [] then []
    else
      var e := ledger[|ledger| - 1];
      TokensOf(ledger[..|ledger| - 1]) + match e { case Sampled(t) => [t] case Injected(ts) => ts }
  }

  /** A token the engine cannot spell is not recorded. */
  function Spelling(tokenText: Token -> Option<string>, t: Token): string {
    match tokenText(t)
    case Some(part) => part
    case None => ""
  }

  function Spell(tokenText: Token -> Option<string>, ledger: seq<Entry>): string {
    if ledger == [] then ""
    else
      var e := ledger[|ledger| - 1];
      Spell(tokenText, ledger[..|ledger| - 1]) + if e.Sampled? then Spelling(tokenText, e.token) else INJECT
  }

  function Injections(ledger: seq<Entry>): nat {
    if ledger == [] then 0
    else Injections(ledger[..|ledger| - 1]) + if ledger[|ledger| - 1].Injected? then 1 else 0
  }

  function AllSampled(tokens: seq<Token>): seq<Entry> {
    seq(|tokens|, i requires 0 <= i < |tokens| => Sampled(tokens[i]))
  }

  lemma OneEntry(tokenText: Token -> Option<string>, ledger: seq<Entry>, e: Entry)
    ensures TokensOf(ledger + [e]) == TokensOf(ledger) + match e { case Sampled(t) => [t] case Injected(ts) => ts }
    ensures Spell(tokenText, ledger + [e]) == Spell(tokenText, ledger) + if e.Sampled? then
            Spelling(tokenText, e.token) else INJECT
    ensures Injections(ledger + [e]) == Injections(ledger) + if e.Injected? then 1 else 0
  {
    assert (ledger + [e])[..|ledger|] == ledger;
  }

  lemma OneMoreSampled(ledger: seq<Entry>, tokens: seq<Token>, t: Token)
    ensures ledger + AllSampled(tokens + [t]) == ledger + AllSampled(tokens) + [Sampled(t)]
  {}

  lemma {:induction false} TokensAppend(ledger: seq<Entry>, tokens: seq<Token>)
    ensures TokensOf(ledger + AllSampled(tokens)) == TokensOf(ledger) + tokens
  {
    hide AllSampled, TokensOf;
    if tokens == [] {
      NoneSampled(ledger);
      assert tokens == [] && TokensOf(ledger) + tokens == TokensOf(ledger);
    } else {
      var init, last := tokens[..|tokens| - 1], tokens[|tokens| - 1];
      assert tokens == init + [last];
      TokensAppend(ledger, init);
      OneMoreSampled(ledger, init, last);
      OneEntry(_ => None, ledger + AllSampled(init), Sampled(last));
      assert TokensOf(ledger) + init + [last] == TokensOf(ledger) + tokens;
    }
  }

  lemma NoneSampled(ledger: seq<Entry>)
    ensures ledger + AllSampled([]) == ledger
  {}

  /** Forced shut, the reasoning is over and the reply has only begun. */
  lemma ForcedGoesOn(d: Reader, text: string)
    requires !Contains(text, THINK_END)
    ensures Contains(text + INJECT, THINK_END) && !Complete(d, true, text + INJECT)
  {
    hide Index, Decide, MarkerAt;
    var t := text + INJECT;
    CloserBehind(text);
    assert t == text + THINK_END + "\n\n";
    assert Index(t, THINK_END) == |text| by {
      assert (text + THINK_END + "<")[..|text| + 8] == text + THINK_END;
      FirstCloser(text, "\n\n");
    }
    assert ReplyText(true, t) == "\n\n";
    BreaksGoOn(d);
    FirstCloser(text, "\n\n<");
    assert t + "<" == text + THINK_END + "\n\n<";
    assert (t + "<")[|text| + |THINK_END|..] == "\n\n<" && t[|text| + |THINK_END|..] == "\n\n";
  }

  lemma FirstCloser(text: string, rest: string)
    requires !Contains(text, THINK_END)
    ensures Index(text + THINK_END + rest, THINK_END) == |text|
  {
    hide Index;
    CloserBehind(text);
    var t := text + THINK_END;
    IndexIsFirst(t + "<", THINK_END);
    forall j | 0 <= j < |text| ensures !(THINK_END <= (t + rest)[j..]) {
      assert !(THINK_END <= (t + "<")[j..]);
      assert (t + "<")[j..][..|THINK_END|] == t[j..j + |THINK_END|] == (t + rest)[j..][..|THINK_END|];
    }
    assert (t + rest)[|text|..] == THINK_END + rest;
    IndexIs(t + rest, THINK_END, |text|);
  }

  lemma BreaksGoOn(d: Reader)
    ensures !ReplyCloses(d, "\n\n") && Decide(d, "\n\n<") != Decide(d, "\n\n")
  {
    hide MarkerAt, NextMarker, EOS;
    EosIsOpener();
    forall j | 0 <= j < 2 ensures MarkerAt(d, "\n\n"[j..]) == NoMarker {
      NoMarkerInFront(d, "\n\n"[j..]);
    }
    NextMarkerIs(d, "\n\n", 2);
    DecideKeepsBytes(d, "\n\n<");
    assert "\n\n<"[2..] == "<";
  }

  lemma StaysShut(text: string, more: string)
    ensures Contains(text, THINK_END) ==> Contains(text + more, THINK_END)
  {
    hide Index;
    if Contains(text, THINK_END) {
      IndexExtends(text, more, THINK_END);
    }
  }

  /** Nothing has been heard: the text needs more, and holds no stanza. */
  lemma NothingHeard(s: Snap)
    requires !s.final && s.full == "" && s.state != StDone && !s.closed && Waiting(s) && Consistent(s)
    ensures !Complete(s.d, s.thinking, "") && !StanzaOpen(s.d, s.thinking, "")
  {
    hide Waiting, Tracked, Told, DecoderState.Valid, Complete, Index, XmlWellFormed, WellFormed;
    CompleteWhenSignalled(s);
    NoStanzaYet(s.d);
  }

  lemma NoStanzaYet(d: Reader)
    ensures !HasStanza(d, "")
  {}

  lemma StillThinkingNow(s: Snap)
    requires !s.final && s.state == StThinking && Waiting(s) && Consistent(s)
    ensures s.thinking && !Complete(s.d, s.thinking, s.full)
  {
    hide Waiting, Tracked, Told, DecoderState.Valid, Complete, Index, BlockOver;
    ThinkingIsOpen(s);
    CompleteWhenSignalled(s);
    ReasoningWhenOpen(s);
  }

  lemma ThinkingIsOpen(s: Snap)
    requires s.state == StThinking && DecoderState.Valid(s)
    ensures !s.closed
  {
    hide Faithful, HasStanza, StanzaAt, ContentOf, ToolsOf;
  }

  class Listener {
    const tokenText: Token -> Option<string>
    const recovers: bool
    const budget: int
    const dec: StreamDecoder

    var text: string
    var stopped: bool
    var cause: Cause
    var parentDone: bool
    var remaining: int
    var forwarded: seq<Event>

    ghost var ledger: seq<Entry>

    // what the decoder and the caller have answered when asked for the most likely token
    ghost var wishes: seq<bool>

    /** The turn has stopped exactly when its text needs no more, and the decoder sees the stanzas the text holds. */
    ghost predicate Listens()
      reads this, dec
    {
      && !dec.finalPass && dec.fullText == text && forwarded == dec.seen.emitted
      && (stopped <==> Complete(dec.reader, dec.thinking, text))
      && (dec.ToolStanzaInThinking() <==> StanzaOpen(dec.reader, dec.thinking, text))
      && Waiting(dec.Now()) && Consistent(dec.Now())
    }

    /** Text, budget and injections agree with the steps taken. */
    ghost predicate Balanced()
      reads this
    {
      && text == Spell(tokenText, ledger) && remaining == budget - |TokensOf(ledger)|
      && Injections(ledger) <= 1 && (Injections(ledger) == 1 ==> Contains(text, THINK_END))
    }

    /** Once stopped, the round's context is cancelled, and not for a recovery. */
    predicate Halted()
      reads this
    {
      (stopped ==> cause == TurnComplete || parentDone) && (cause == ThinkRecovery ==> !stopped) &&
      (cause == TurnComplete ==> stopped)
    }

    ghost predicate Ready()
      reads this, dec
    {
      Balanced() && Listens()
    }

    constructor (tokenText: Token -> Option<string>, recovers: bool, budget: int, dec: StreamDecoder)
      requires !dec.finalPass && dec.fullText == "" && dec.seen.emitted == []
      requires !dec.Done() && !dec.block.toolBlockClosed && !dec.ToolStanzaInThinking()
      requires Waiting(dec.Now()) && Consistent(dec.Now())
      ensures this.tokenText == tokenText && this.recovers == recovers && this.budget == budget && this.dec == dec
      ensures Ready() && !stopped && ledger == [] && remaining == budget && !parentDone
    {
      hide Consistent, Waiting, Complete, StanzaOpen;
      NothingHeard(dec.Now());
      this.tokenText, this.recovers, this.budget, this.dec := tokenText, recovers, budget, dec;
      text, stopped, cause, parentDone, remaining, forwarded, ledger := "", false, Running, false, budget, [], [];
      wishes := [];
    }

    /** Whether the round's context is cancelled; the caller's own context may end at any moment. */
    method Cancelled() returns (c: bool)
      modifies this`parentDone
      ensures old(parentDone) ==> parentDone
      ensures c == (cause != Running || parentDone)
      ensures old(Ready()) ==> Ready()
      ensures old(Halted()) ==> Halted()
    {
      hide Consistent, Waiting, Complete, StanzaOpen, Spell, TokensOf, Injections, Index;
      var ends: bool := *;
      parentDone := parentDone || ends;
      c := cause != Running || parentDone;
    }

    /** The decoder's and the caller's wish for the next token; either may ask for the most likely one. */
    method WantsGreedy() returns (greedy: bool)
      modifies this`wishes
      ensures wishes == old(wishes) + [greedy]
      ensures old(Ready()) ==> Ready()
      ensures old(Halted()) ==> Halted()
    {
      hide Consistent, Waiting, Complete, StanzaOpen, Spell, TokensOf, Injections, Index;
      greedy := *;
      wishes := wishes + [greedy];
    }

    function Hit(): bool
      reads this, dec
    {
      recovers && dec.ToolStanzaInThinking()
    }

    /** `emit`. */
    method Emit(part: string)
      requires Listens()
      modifies this`text, this`stopped, this`cause, this`forwarded, dec
      ensures old(stopped) ==> stopped && text == old(text) && cause == old(cause) && dec.Now() == old(dec.Now())
      ensures !old(stopped) ==> text == old(text) + part
      ensures !old(stopped) ==> cause == if old(cause) != Running || parentDone then old(cause) else Signalled()
      ensures Listens()
    {
      hide Consistent, Waiting, StanzaOpen, BlockOver, Decided, StreamDecoder.Now, StreamDecoder.ToolStanzaInThinking;
      if stopped {
        return;
      }
      text := text + part;
      var events := dec.Write(part);
      forwarded := forwarded + events;
      if dec.block.toolBlockClosed || dec.Done() {
        stopped := true;
        Cancel(TurnComplete);
        return;
      }
      if recovers && dec.ToolStanzaInThinking() {
        Cancel(ThinkRecovery);
      }
    }

    /** What the text so far cancels a round for. */
    ghost function Signalled(): Cause
      reads this, dec
    {
      if Complete(dec.reader, dec.thinking, text) then TurnComplete
      else if recovers && StanzaOpen(dec.reader, dec.thinking, text) then ThinkRecovery
      else Running
    }

    /** The first cancellation wins. */
    method Cancel(why: Cause)
      modifies this`cause
      ensures cause == if old(cause) == Running && !parentDone then why else old(cause)
    {
      if cause == Running && !parentDone {
        cause := why;
      }
    }

    /** `OnToken`: the token's text is heard, and cancels the round when it is complete or opens a stanza inside the
        reasoning. */
    method OnToken(t: Token)
      requires !stopped && cause == Running
      requires Ready()
      modifies this, dec
      ensures parentDone == old(parentDone) && wishes == old(wishes)
      ensures ledger == old(ledger) + [Sampled(t)] && remaining == old(remaining) - 1
      ensures text == old(text) + Spelling(tokenText, t) && (stopped <==> Complete(dec.reader, dec.thinking, text))
      ensures cause == if tokenText(t) == None || parentDone then Running else Signalled()
      ensures Halted()
      ensures Ready()
    {
      hide Consistent, Waiting, Complete, StanzaOpen, Spell, TokensOf, Injections, Index;
      ghost var was := text;
      remaining := remaining - 1;
      OneEntry(tokenText, ledger, Sampled(t));
      StaysShut(text, Spelling(tokenText, t));
      ledger := ledger + [Sampled(t)];
      var part := tokenText(t);
      if part.Some? {
        Emit(part.value);
      } else {
        assert was + "" == was;
      }
    }

    /** A fresh context for the next round. */
    method NextRound()
      requires Ready() && !stopped
      modifies this`cause
      ensures Ready() && Halted() && cause == Running
    {
      hide Consistent, Waiting, Complete, StanzaOpen, Spell, TokensOf, Injections, Index;
      cause := Running;
    }

    /** The forced closing tag is recorded like generated text. There has been none before: the decoder would
        no longer be reasoning. */
    method RecordInjection(tokens: seq<Token>)
      requires dec.ToolStanzaInThinking()
      requires Ready()
      modifies this`text, this`forwarded, this`remaining, this`ledger, dec
      ensures ledger == old(ledger) + [Injected(tokens)] && remaining == old(remaining) - |tokens|
      ensures !stopped
      ensures Ready()
    {
      hide Consistent, Waiting, Complete, StanzaOpen, Spell, TokensOf, Injections, Contains, Decided, BlockOver;
      NotStopped();
      OneEntry(tokenText, ledger, Injected(tokens));
      ForcedGoesOn(dec.reader, text);
      remaining := remaining - |tokens|;
      ledger := ledger + [Injected(tokens)];
      text := text + INJECT;
      var events := dec.Write(INJECT);
      forwarded := forwarded + events;
    }

    /** Reasoning that is still open needs more. */
    lemma NotStopped()
      requires dec.ToolStanzaInThinking()
      requires Ready()
      ensures !stopped && dec.thinking && !Contains(text, THINK_END)
    {
      hide Waiting, Consistent, HasStanza, Complete, Index;
      StillThinkingNow(dec.Now());
    }

    lemma Settled()
      requires Ready()
      ensures Balanced() && (stopped <==> Complete(dec.reader, dec.thinking, text))
      ensures dec.ToolStanzaInThinking() <==> StanzaOpen(dec.reader, dec.thinking, text)
    {}

    /** The stream ends: all events are forwarded. */
    method Close()
      requires Ready()
      modifies this`forwarded, dec
      ensures Balanced() && forwarded == dec.seen.emitted && dec.fullText == text
      ensures Shows(dec.reader, forwarded, DecideAll(dec.reader, dec.thinking, text))
    {
      hide Consistent, Waiting, Complete, StanzaOpen, Spell, TokensOf, Injections, Index, Shows, DecideAll;
      var events, _ := dec.Close();
      forwarded := forwarded + events;
    }
  }
}
