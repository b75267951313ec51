/** The native session as generation sees it (ds4api/session.go): a token sequence and whether its checkpoint
    is valid. The network is a function of the tokens and images; which drafts it accepts is its own choice. */
module Sessions {
  type Token = nat
  type Rng = int

  /** An image's placeholder tokens in the prompt. */
  datatype Span = Span(start: nat, count: nat) {
    function End(): nat { start + count }
  }

  /** The engine and sampling settings. `draft` is the draft length of speculative decoding. */
  datatype Network = Network(
    next: (seq<Token>, seq<Span>) -> Token,
    nextExcluding: (seq<Token>, seq<Span>, int) -> Token,
    sample: (seq<Token>, seq<Span>, Rng) -> (Token, Rng),
    isStop: Token -> bool,
    draft: int, sampledSpeculative: bool, exactSampling: bool)

  datatype Status = Done | Failed | Split(span: Span)

  function Max(a: int, b: int): int { if a < b then b else a }

  function Min(a: int, b: int): int { if a < b then a else b }

  predicate Straddles(sp: Span, n: nat) {
    sp.start < n < sp.End()
  }

  /** The spans inside the first `n` tokens. */
  function Kept(spans: seq<Span>, n: nat): seq<Span> {
    if spans == [] then []
    else Kept(spans[..|spans| - 1], n) + if spans[|spans| - 1].End() <= n then [spans[|spans| - 1]] else []
  }

  predicate Inside(spans: seq<Span>, n: nat) {
    forall i :: 0 <= i < |spans| ==> spans[i].End() <= n
  }

  lemma {:induction false} AllKept(spans: seq<Span>, n: nat)
    requires Inside(spans, n)
    ensures Kept(spans, n) == spans
  {
    if spans == [] {
    } else {
      hide Kept;
      var init, last := spans[..|spans| - 1], spans[|spans| - 1];
      assert forall i :: 0 <= i < |init| ==> init[i] == spans[i];
      AllKept(init, n);
      assert spans == init + [last];
      LastKept(init, last, n);
    }
  }

  lemma LastKept(init: seq<Span>, last: Span, n: nat)
    ensures Kept(init + [last], n) == Kept(init, n) + if last.End() <= n then [last] else []
  {
    assert (init + [last])[..|init|] == init;
  }

  /** The prefix a rewind to `pos` keeps; at or past the end it keeps everything. */
  function Retained(tokens: seq<Token>, pos: int): seq<Token> {
    if pos < 0 then [] else if pos < |tokens| then tokens[..pos] else tokens
  }

  /** Each accepted token is what the network would have produced by itself. */
  predicate Greedily(m: Network, images: seq<Span>, base: seq<Token>, run: seq<Token>) {
    forall i :: 1 <= i < |run| ==> run[i] == m.next(base + run[..i], images)
  }

  class Session {
    const network: Network
    const ctx: int
    var tokens: seq<Token>
    var valid: bool
    var images: seq<Span>

    // the most tokens ever held, and the lowest position ever rewound to
    ghost var highest: int
    ghost var lowest: int

    // whether a native call has failed
    ghost var failed: bool

    function Pos(): nat
      reads this
    {
      |tokens|
    }

    method Argmax() returns (token: int)
      ensures token == if valid then network.next(tokens, images) else -1
    {
      token := if valid then network.next(tokens, images) else -1;
    }

    method ArgmaxExcluding(exclude: int) returns (token: int)
      ensures token == if valid then network.nextExcluding(tokens, images, exclude) else -1
    {
      token := if valid then network.nextExcluding(tokens, images, exclude) else -1;
    }

    method Sample(rng: Rng) returns (token: int, rng': Rng)
      ensures if valid then (token, rng') == network.sample(tokens, images, rng) else token == -1
    {
      if valid {
        var drawn := network.sample(tokens, images, rng);
        token, rng' := drawn.0, drawn.1;
      } else {
        token, rng' := -1, rng;
      }
    }

    /** Needs a valid checkpoint; may fail natively, and then nothing is known of the session. */
    method Eval(token: Token) returns (ok: bool)
      modifies this
      ensures ok ==> old(valid) && valid && tokens == old(tokens) + [token] && images == old(images)
      ensures lowest == old(lowest) && highest <= Max(old(highest), |old(tokens)| + 1)
      ensures failed == (old(failed) || !ok)
    {
      ok := *;
      if !valid || !ok {
        failed := true;
        return false;
      }
      tokens := tokens + [token];
      highest := Max(highest, |tokens|);
    }

    /** Any number of drafts is accepted, none included; those accepted are evaluated. */
    method EvalSpeculativeArgmax(first: Token, max: nat) returns (accepted: seq<Token>, ok: bool)
      modifies this
      ensures ok ==> |accepted| <= max && tokens == old(tokens) + accepted && images == old(images)
      ensures ok && accepted == [] ==> valid == old(valid)
      ensures ok && accepted != [] ==> accepted[0] == first && valid && Greedily(network, images, old(tokens), accepted)
      ensures lowest == old(lowest) && highest <= Max(old(highest), |old(tokens)| + max)
      ensures failed == (old(failed) || !ok)
    {
      ok := *;
      accepted := [];
      failed := failed || !ok;
      assert tokens == tokens + [];
      if max == 0 || !ok {
        return;
      }
      var rejected: bool := *;
      if rejected || !valid {
        return;
      }
      accepted := [first];
      tokens := tokens + [first];
      var more: bool := *;
      while more && |accepted| < max
        invariant highest == old(highest) && lowest == old(lowest) && failed == old(failed)
        invariant 1 <= |accepted| <= max && accepted[0] == first && valid && images == old(images)
        invariant tokens == old(tokens) + accepted && Greedily(network, images, old(tokens), accepted)
        decreases max - |accepted|
      {
        var t := network.next(tokens, images);
        ghost var was := accepted;
        accepted := accepted + [t];
        assert forall i :: 1 <= i <= |was| ==> accepted[..i] == was[..i];
        assert old(tokens) + was + [t] == old(tokens) + accepted;
        tokens := tokens + [t];
        more := *;
      }
      highest := Max(highest, |tokens|);
    }

    /** At a positive temperature the drafts are drawn: only the first token is known. */
    method EvalSpeculative(first: Token, max: nat, rng: Rng) returns (accepted: seq<Token>, rng': Rng, ok: bool)
      modifies this
      ensures ok ==> |accepted| <= max && tokens == old(tokens) + accepted && images == old(images)
      ensures ok && accepted == [] ==> valid == old(valid)
      ensures ok && accepted != [] ==> accepted[0] == first && valid
      ensures lowest == old(lowest) && highest <= Max(old(highest), |old(tokens)| + max)
      ensures failed == (old(failed) || !ok)
    {
      ok, rng', accepted := *, *, [];
      failed := failed || !ok;
      assert tokens == tokens + [];
      if max == 0 || !ok {
        return;
      }
      var rejected: bool := *;
      var drawn: seq<Token> := *;
      if rejected || !valid || |drawn| + 1 > max {
        return;
      }
      accepted := [first] + drawn;
      tokens := tokens + accepted;
      highest := Max(highest, |tokens|);
    }

    /** The native rewind: some engines lose the checkpoint. */
    method Rewind(pos: int)
      modifies this
      ensures tokens == Retained(old(tokens), pos) && images == old(images)
      ensures |tokens| == |old(tokens)| ==> valid == old(valid)
      ensures highest == old(highest) && lowest == Min(old(lowest), |tokens|) && failed == old(failed)
    {
      if Max(pos, 0) < |tokens| {
        tokens := tokens[..Max(pos, 0)];
        valid := *;
      }
      lowest := Min(lowest, |tokens|);
    }

    /** The prefix of `prompt` the checkpoint holds: none without a checkpoint. */
    method CommonPrefix(prompt: seq<Token>) returns (n: nat)
      ensures !valid ==> n == 0
      ensures valid && prompt == tokens ==> n == |prompt|
    {
      if !valid {
        return 0;
      }
      n := 0;
      while n < |prompt| && n < |tokens| && prompt[n] == tokens[n]
        invariant n <= |prompt| && n <= |tokens| && prompt[..n] == tokens[..n]
      {
        n := n + 1;
      }
    }

    method SyncMultimodal(prompt: seq<Token>, spans: seq<Span>) returns (ok: bool)
      modifies this
      ensures ok ==> tokens == prompt && valid && images == spans
      ensures lowest == Min(old(lowest), |prompt|) && highest <= Max(old(highest), |prompt|)
      ensures failed == (old(failed) || !ok)
    {
      ok := *;
      failed := failed || !ok;
      var l := Min(lowest, |prompt|);
      if !ok {
        lowest := l;
        return;
      }
      tokens, valid, images := prompt, true, spans;
      lowest := l;
      highest := Max(highest, |tokens|);
    }

    /** Rewinds and, if the checkpoint was lost, rebuilds it with the images that survive. Only a rewind to
        nothing may leave the session without a checkpoint. */
    method RewindSynced(pos: int, spans: seq<Span>) returns (status: Status)
      modifies this
      ensures var kept := Retained(old(tokens), pos);
              && (status == Done ==> tokens == kept && (valid || kept == []))
              && (status == Done ==> images == old(images) || images == Kept(spans, |kept|))
              && (status.Split? ==> status.span in spans && Straddles(status.span, |kept|))
              && lowest == Min(old(lowest), |kept|)
      ensures highest <= Max(old(highest), |old(tokens)|)
      ensures failed == (old(failed) || status == Failed)
    {
      Rewind(pos);
      var retained := tokens;
      var n := CommonPrefix(retained);
      if n == |retained| {
        return Done;
      }
      var kept: seq<Span> := [];
      var i := 0;
      while i < |spans|
        invariant i <= |spans| && kept == Kept(spans[..i], |retained|)
      {
        assert spans[..i + 1][..i] == spans[..i];
        if spans[i].End() <= |retained| {
          kept := kept + [spans[i]];
        } else if spans[i].start < |retained| {
          return Split(spans[i]);
        }
        i := i + 1;
      }
      assert spans[..i] == spans;
      var ok := SyncMultimodal(retained, kept);
      status := if ok then Done else Failed;
    }
  }
}
