/** The grammar matcher's wrapper: accept, validate, roll back and reset over batches of
    speculative tokens, with a cached termination flag and a token counter. */
module Xgrammar {

  type Token = nat

  /** A grammar, as the matcher sees it: `allowed(s)` says whether the last token of `s`
      may follow the ones before it, `ends(s)` whether the matcher has terminated after
      consuming `s`. */
  datatype Grammar = Grammar(allowed: seq<Token> -> bool, ends: seq<Token> -> bool)

  /** How many leading tokens a batch consumes from `s`: up to the first the grammar
      rejects or the one that ends it. */
  function Run(g: Grammar, s: seq<Token>, tokens: seq<Token>): (n: nat)
    ensures n <= |tokens|
    decreases |tokens|
  {
    if tokens == [] || g.ends(s) || !g.allowed(s + [tokens[0]]) then 0
    else 1 + Run(g, s + [tokens[0]], tokens[1..])
  }

  /** `n` tokens can be consumed one after the other, none of them after the end. */
  predicate Consumable(g: Grammar, s: seq<Token>, tokens: seq<Token>, n: nat)
    requires n <= |tokens|
  {
    forall i :: 0 <= i < n ==> !g.ends(s + tokens[..i]) && g.allowed(s + tokens[..i] + [tokens[i]])
  }

  lemma {:induction false} RunConsumes(g: Grammar, s: seq<Token>, tokens: seq<Token>)
    ensures Consumable(g, s, tokens, Run(g, s, tokens))
    decreases |tokens|
  {
    if Run(g, s, tokens) > 0 {
      var next, rest := s + [tokens[0]], tokens[1..];
      RunConsumes(g, next, rest);
      forall i | 0 <= i < Run(g, s, tokens)
        ensures !g.ends(s + tokens[..i]) && g.allowed(s + tokens[..i] + [tokens[i]])
      {
        if i == 0 {
          assert s + tokens[..0] == s;
        } else {
          assert next + rest[..i - 1] == s + tokens[..i];
        }
      }
    }
  }

  /** `Run` is the longest consumable prefix. */
  lemma {:induction false} RunIsMaximal(g: Grammar, s: seq<Token>, tokens: seq<Token>, n: nat)
    requires n <= |tokens|
    ensures Consumable(g, s, tokens, n) <==> n <= Run(g, s, tokens)
    decreases |tokens|
  {
    RunConsumes(g, s, tokens);
    if Consumable(g, s, tokens, n) && n > 0 {
      assert s + tokens[..0] == s;
      var next, rest := s + [tokens[0]], tokens[1..];
      forall i | 0 <= i < n - 1
        ensures !g.ends(next + rest[..i]) && g.allowed(next + rest[..i] + [rest[i]])
      {
        assert next + rest[..i] == s + tokens[..i + 1];
      }
      RunIsMaximal(g, next, rest, n - 1);
    }
  }

  /** Consuming two batches is consuming one: a batch may be cut anywhere. */
  lemma {:induction false} RunSplits(g: Grammar, s: seq<Token>, a: seq<Token>, b: seq<Token>)
    ensures Run(g, s, a + b) ==
            if Run(g, s, a) == |a| then |a| + Run(g, s + a, b) else Run(g, s, a)
    decreases |a|
  {
    if a == [] {
      assert a + b == b && s + a == s;
    } else {
      assert (a + b)[1..] == a[1..] + b;
      RunSplits(g, s + [a[0]], a[1..], b);
      assert s + [a[0]] + a[1..] == s + a;
    }
  }

  // ------------------------------------------------------------------ the wrapper

  /** What the wrapper holds: the matcher's consumed tokens, its own counter and flag. */
  datatype Fsm = Fsm(consumed: seq<Token>, processed: int, terminated: bool)

  const FRESH := Fsm([], 0, false)

  /** The flag is the matcher's termination, the counter the tokens consumed. */
  predicate Agrees(g: Grammar, f: Fsm) {
    f.terminated == g.ends(f.consumed) && f.processed == |f.consumed|
  }

  /** State after a batch. */
  function After(g: Grammar, f: Fsm, tokens: seq<Token>): Fsm {
    var n := if f.terminated then 0 else Run(g, f.consumed, tokens);
    var consumed := f.consumed + tokens[..n];
    Fsm(consumed, f.processed + n, if n == 0 then f.terminated else g.ends(consumed))
  }

  /** A batch fails only on a token the grammar rejects before its end. */
  predicate Advances(g: Grammar, f: Fsm, tokens: seq<Token>) {
    After(g, f, tokens).terminated || (!f.terminated && Run(g, f.consumed, tokens) == |tokens|)
  }

  function Valid(g: Grammar, f: Fsm, tokens: seq<Token>): seq<Token> {
    if f.terminated then [] else tokens[..Run(g, f.consumed, tokens)]
  }

  /** The matcher the wrapper drives.  Rollback drops the last tokens consumed. */
  class Matcher {
    const grammar: Grammar
    var consumed: seq<Token>

    constructor (g: Grammar)
      ensures grammar == g && consumed == []
    {
      grammar := g;
      consumed := [];
    }

    method AcceptToken(token: Token) returns (ok: bool)
      modifies this
      ensures ok == grammar.allowed(old(consumed) + [token])
      ensures consumed == if ok then old(consumed) + [token] else old(consumed)
    {
      ok := grammar.allowed(consumed + [token]);
      if ok {
        consumed := consumed + [token];
      }
    }

    method Rollback(n: nat)
      requires n <= |consumed|
      modifies this
      ensures consumed == old(consumed)[..|old(consumed)| - n]
    {
      consumed := consumed[..|consumed| - n];
    }

    method Reset()
      modifies this
      ensures consumed == []
    {
      consumed := [];
    }
  }

  datatype Step = Skipped | Advanced | Dropped | Failed

  class XgrammarGrammar {
    const matcher: Matcher
    var terminated: bool
    var processed: int
    /** "Failed to advance FSM" messages logged. */
    var errors: nat

    ghost function View(): Fsm
      reads this, matcher
    {
      Fsm(matcher.consumed, processed, terminated)
    }

    constructor (m: Matcher)
      requires m.consumed == []
      ensures matcher == m && View() == FRESH && errors == 0
    {
      matcher := m;
      terminated, processed, errors := false, 0, 0;
    }

    method AcceptTokens(tokens: seq<Token>) returns (ok: bool)
      requires Agrees(matcher.grammar, View())
      modifies this, matcher
      ensures View() == After(matcher.grammar, old(View()), tokens)
      ensures ok == Advances(matcher.grammar, old(View()), tokens)
      ensures errors == old(errors) + (if ok then 0 else 1)
    {
      var g := matcher.grammar;
      if terminated {
        assert tokens[..0] == [] && matcher.consumed + [] == matcher.consumed;
        return true;
      }
      ghost var start := matcher.consumed;
      assert start + tokens[..0] == start;
      for i := 0 to |tokens|
        invariant matcher.consumed == start + tokens[..i] && processed == old(processed) + i
        invariant !terminated && !g.ends(start + tokens[..i]) && errors == old(errors)
        invariant Run(g, start, tokens) == i + Run(g, start + tokens[..i], tokens[i..])
      {
        assert tokens[i..][1..] == tokens[i + 1..];
        assert start + tokens[..i] + [tokens[i]] == start + tokens[..i + 1];
        var accepted := matcher.AcceptToken(tokens[i]);
        if !accepted {
          errors := errors + 1;
          return false;
        }
        processed := processed + 1;
        terminated := g.ends(matcher.consumed);
        if terminated {
          break;
        }
      }
      return true;
    }

    method ValidateTokens(tokens: seq<Token>) returns (accepted: seq<Token>)
      requires Agrees(matcher.grammar, View())
      modifies matcher
      ensures accepted == Valid(matcher.grammar, View(), tokens)
      ensures View() == old(View())
    {
      var g := matcher.grammar;
      if terminated {
        return [];
      }
      ghost var start := matcher.consumed;
      accepted := [];
      assert start + tokens[..0] == start && tokens[0..] == tokens;
      for i := 0 to |tokens|
        invariant accepted == tokens[..i] && matcher.consumed == start + tokens[..i]
        invariant !g.ends(start + tokens[..i])
        invariant Run(g, start, tokens) == i + Run(g, start + tokens[..i], tokens[i..])
      {
        assert tokens[i..][1..] == tokens[i + 1..];
        assert start + tokens[..i] + [tokens[i]] == start + tokens[..i + 1];
        var ok := matcher.AcceptToken(tokens[i]);
        if !ok {
          break;
        }
        accepted := accepted + [tokens[i]];
        if g.ends(matcher.consumed) {
          break;
        }
      }
      assert (start + accepted)[..|start|] == start;
      if |accepted| > 0 {
        matcher.Rollback(|accepted|);
      }
    }

    method Rollback(n: nat)
      requires n <= |matcher.consumed|
      modifies this, matcher
      ensures View() == RolledBack(matcher.grammar, old(View()), n)
      ensures errors == old(errors)
    {
      matcher.Rollback(n);
      processed := processed - n;
      terminated := matcher.grammar.ends(matcher.consumed);
    }

    method Reset()
      modifies this, matcher
      ensures View() == FRESH && errors == old(errors)
    {
      matcher.Reset();
      processed := 0;
      terminated := false;
    }

    /** The manager's branch for one scheduled token.  `pending`: the end of reasoning was
        seen in this window, so a token drafted before it may be invalid. */
    method ManagerStep(token: Token, advance: bool, pending: bool) returns (step: Step)
      requires Agrees(matcher.grammar, View())
      modifies this, matcher
      ensures step == StepOf(matcher.grammar, old(View()), token, advance, pending)
      ensures View() == (if step.Advanced? then After(matcher.grammar, old(View()), [token]) else old(View()))
      ensures pending ==> errors == old(errors)
    {
      if !advance || terminated {
        return Skipped;
      }
      var accepted: bool;
      OneToken(matcher.grammar, View(), token);
      if pending {
        var prefix := ValidateTokens([token]);
        accepted := prefix != [];
        if accepted {
          accepted := AcceptTokens([token]);
        }
      } else {
        accepted := AcceptTokens([token]);
      }
      step := if accepted then Advanced else if pending then Dropped else Failed;
    }
  }

  function RolledBack(g: Grammar, f: Fsm, n: nat): Fsm
    requires n <= |f.consumed|
  {
    var consumed := f.consumed[..|f.consumed| - n];
    Fsm(consumed, f.processed - n, g.ends(consumed))
  }

  function StepOf(g: Grammar, f: Fsm, token: Token, advance: bool, pending: bool): Step {
    if !advance || f.terminated then Skipped
    else if g.allowed(f.consumed + [token]) then Advanced
    else if pending then Dropped else Failed
  }

  lemma OneToken(g: Grammar, f: Fsm, token: Token)
    requires Agrees(g, f)
    ensures !f.terminated ==> Run(g, f.consumed, [token]) == if g.allowed(f.consumed + [token]) then 1 else 0
    ensures !f.terminated && !g.allowed(f.consumed + [token]) ==>
              After(g, f, [token]) == f && !Advances(g, f, [token]) && Valid(g, f, [token]) == []
    ensures !f.terminated && g.allowed(f.consumed + [token]) ==>
              Advances(g, f, [token]) && Valid(g, f, [token]) == [token]
  {
    assert [token][1..] == [] && [token][..1] == [token];
    assert f.consumed + [] == f.consumed;
    if !f.terminated && g.allowed(f.consumed + [token]) {
      assert Run(g, f.consumed + [token], []) == 0;
    }
  }

  // ------------------------------------------------------------------------- laws

  /** Validation returns exactly the longest prefix that accepting then consumes, and
      accepting it succeeds. */
  lemma ValidateThenAccept(g: Grammar, f: Fsm, tokens: seq<Token>)
    requires Agrees(g, f)
    ensures var v := Valid(g, f, tokens);
            && After(g, f, v) == After(g, f, tokens)
            && After(g, f, v).consumed == f.consumed + v
            && Advances(g, f, v)
            && (forall n :: 0 <= n <= |tokens| ==>
                  (!f.terminated && Consumable(g, f.consumed, tokens, n) <==> n <= |v| && !f.terminated))
  {
    var v := Valid(g, f, tokens);
    if f.terminated {
      assert tokens[..0] == v[..0] == [];
    } else {
      var n := Run(g, f.consumed, tokens);
      assert tokens == v + tokens[n..];
      RunSplits(g, f.consumed, v, tokens[n..]);
      RunConsumes(g, f.consumed, tokens);
      assert Consumable(g, f.consumed, v, n) by {
        forall i | 0 <= i < n
          ensures !g.ends(f.consumed + v[..i]) && g.allowed(f.consumed + v[..i] + [v[i]])
        {
          assert v[..i] == tokens[..i];
        }
      }
      RunIsMaximal(g, f.consumed, v, n);
      assert v[..n] == v;
      forall k | 0 <= k <= |tokens|
        ensures Consumable(g, f.consumed, tokens, k) <==> k <= n
      {
        RunIsMaximal(g, f.consumed, tokens, k);
      }
    }
  }

  /** A speculative batch fed at once ends where it ends when cut anywhere, and fails
      exactly when one of the two parts does. */
  lemma BatchMayBeCut(g: Grammar, f: Fsm, a: seq<Token>, b: seq<Token>)
    requires Agrees(g, f) && Advances(g, f, a)
    ensures After(g, f, a + b) == After(g, After(g, f, a), b)
    ensures Advances(g, f, a + b) == Advances(g, After(g, f, a), b)
  {
    RunSplits(g, f.consumed, a, b);
    var f1 := After(g, f, a);
    var n := Run(g, f.consumed, a);
    if f.terminated {
      assert f.consumed + a[..0] == f.consumed;
    } else if n < |a| {
      assert (a + b)[..n] == a[..n];
      assert f1.consumed + b[..0] == f1.consumed;
    } else {
      assert a[..n] == a;
      var k := Run(g, f.consumed + a, b);
      assert (a + b)[..|a| + k] == a + b[..k];
      assert f.consumed + (a + b[..k]) == f.consumed + a + b[..k];
    }
  }

  datatype Op = Accept(tokens: seq<Token>) | Validate(tokens: seq<Token>) | Rollback(n: nat) | Reset
              | Manage(token: Token, advance: bool, pending: bool)

  /** Operations a caller may ask for: nothing is rolled back that was not consumed. */
  predicate Legal(f: Fsm, op: Op) {
    op.Rollback? ==> op.n <= |f.consumed|
  }

  function Do(g: Grammar, f: Fsm, op: Op): Fsm
    requires Legal(f, op)
  {
    match op
    case Accept(tokens) => After(g, f, tokens)
    case Validate(tokens) => f
    case Rollback(n) => RolledBack(g, f, n)
    case Reset => FRESH
    case Manage(token, advance, pending) =>
      if StepOf(g, f, token, advance, pending).Advanced? then After(g, f, [token]) else f
  }

  predicate LegalRun(g: Grammar, f: Fsm, ops: seq<Op>)
    decreases |ops|
  {
    ops == [] || (Legal(f, ops[0]) && LegalRun(g, Do(g, f, ops[0]), ops[1..]))
  }

  function DoAll(g: Grammar, f: Fsm, ops: seq<Op>): Fsm
    requires LegalRun(g, f, ops)
    decreases |ops|
  {
    if ops == [] then f else DoAll(g, Do(g, f, ops[0]), ops[1..])
  }

  lemma AfterAgrees(g: Grammar, f: Fsm, tokens: seq<Token>)
    requires Agrees(g, f)
    ensures Agrees(g, After(g, f, tokens))
  {
    var n := if f.terminated then 0 else Run(g, f.consumed, tokens);
    if n == 0 {
      assert f.consumed + tokens[..0] == f.consumed;
    }
  }

  /** Over every sequence of calls from a fresh wrapper, the cached flag is the matcher's
      termination and the counter the tokens consumed since the last reset.  A grammar
      that ends on no token at all is the one exception, from the first state on. */
  lemma FlagAndCounterAgree(g: Grammar, ops: seq<Op>)
    requires LegalRun(g, FRESH, ops)
    ensures !g.ends([]) ==> Agrees(g, DoAll(g, FRESH, ops))
    ensures Agrees(g, FRESH) <==> !g.ends([])
  {
    if !g.ends([]) {
      AgreementLasts(g, FRESH, ops);
    }
  }

  lemma {:induction false} AgreementLasts(g: Grammar, f: Fsm, ops: seq<Op>)
    requires !g.ends([]) && Agrees(g, f) && LegalRun(g, f, ops)
    ensures Agrees(g, DoAll(g, f, ops))
    decreases |ops|
  {
    if ops != [] {
      match ops[0] {
        case Accept(tokens) => AfterAgrees(g, f, tokens);
        case Manage(token, _, _) => AfterAgrees(g, f, [token]);
        case _ =>
      }
      AgreementLasts(g, Do(g, f, ops[0]), ops[1..]);
    }
  }

  /** One scheduled token with the manager's two conditions for it. */
  datatype Scheduled = Scheduled(token: Token, advance: bool, pending: bool)

  /** The branch over a window of scheduled tokens: the state, and the advances counted. */
  function Window(g: Grammar, f: Fsm, window: seq<Scheduled>): (Fsm, nat)
    decreases |window|
  {
    if window == [] then (f, 0)
    else
      var w := window[0];
      if StepOf(g, f, w.token, w.advance, w.pending).Advanced? then
        var (f', n) := Window(g, After(g, f, [w.token]), window[1..]);
        (f', n + 1)
      else Window(g, f, window[1..])
  }

  lemma {:induction false} WindowConsumes(g: Grammar, f: Fsm, window: seq<Scheduled>)
    requires Agrees(g, f)
    ensures var (f', n) := Window(g, f, window);
            && Agrees(g, f') && |f'.consumed| == |f.consumed| + n
            && f'.consumed[..|f.consumed|] == f.consumed
    decreases |window|
  {
    if window != [] {
      var w := window[0];
      if StepOf(g, f, w.token, w.advance, w.pending).Advanced? {
        OneToken(g, f, w.token);
        AfterAgrees(g, f, [w.token]);
        assert [w.token][..1] == [w.token];
        var f1 := After(g, f, [w.token]);
        WindowConsumes(g, f1, window[1..]);
        var (f', n) := Window(g, f1, window[1..]);
        assert f'.consumed[..|f.consumed|] == f'.consumed[..|f1.consumed|][..|f.consumed|];
      } else {
        WindowConsumes(g, f, window[1..]);
      }
    }
  }

  /** Rolling back the advances the manager counted undoes the whole window, whatever was
      dropped, skipped or ended inside it. */
  lemma WindowRollsBack(g: Grammar, f: Fsm, window: seq<Scheduled>)
    requires Agrees(g, f)
    ensures var (f', n) := Window(g, f, window); n <= |f'.consumed| && RolledBack(g, f', n) == f
  {
    WindowConsumes(g, f, window);
  }

  // --------------------------------------------------- the code before the patch

  /** Tokens the old loop feeds to the matcher: it does not look at termination. */
  function OldRun(g: Grammar, s: seq<Token>, tokens: seq<Token>): (n: nat)
    ensures n <= |tokens|
    decreases |tokens|
  {
    if tokens == [] || !g.allowed(s + [tokens[0]]) then 0
    else 1 + OldRun(g, s + [tokens[0]], tokens[1..])
  }

  function OldAfter(g: Grammar, f: Fsm, tokens: seq<Token>): Fsm {
    if f.terminated then f
    else
      var n := OldRun(g, f.consumed, tokens);
      var consumed := f.consumed + tokens[..n];
      Fsm(consumed, f.processed + n, n == |tokens| && g.ends(consumed))
  }

  function OldReset(f: Fsm): Fsm { Fsm([], 0, f.terminated) }

  /** The matcher takes `tokens[i]` once it has taken the ones before it. */
  predicate Takes(g: Grammar, s: seq<Token>, tokens: seq<Token>, i: nat)
    requires i < |tokens|
  {
    g.allowed(s + tokens[..i] + [tokens[i]])
  }

  lemma {:induction false} OldRunTakes(g: Grammar, s: seq<Token>, tokens: seq<Token>)
    ensures var n := OldRun(g, s, tokens);
            (forall i :: 0 <= i < n ==> Takes(g, s, tokens, i)) && (n < |tokens| ==> !Takes(g, s, tokens, n))
    decreases |tokens|
  {
    if tokens != [] {
      assert s + tokens[..0] == s;
      if g.allowed(s + [tokens[0]]) {
        var next, rest := s + [tokens[0]], tokens[1..];
        OldRunTakes(g, next, rest);
        forall i | 0 < i < |tokens|
          ensures Takes(g, s, tokens, i) == Takes(g, next, rest, i - 1)
        {
          assert next + rest[..i - 1] == s + tokens[..i];
        }
      }
    }
  }

  /** The batch brings the matcher to its end, and then has a token it does not take. */
  predicate RejectedAtEnd(g: Grammar, s: seq<Token>, tokens: seq<Token>, i: nat) {
    && i < |tokens| && (forall j :: 0 <= j < i ==> Takes(g, s, tokens, j))
    && g.ends(s + tokens[..i]) && !Takes(g, s, tokens, i)
  }

  lemma RejectedWhereItStops(g: Grammar, s: seq<Token>, tokens: seq<Token>, i: nat)
    requires RejectedAtEnd(g, s, tokens, i)
    ensures i == OldRun(g, s, tokens)
  {
    OldRunTakes(g, s, tokens);
    var n := OldRun(g, s, tokens);
    if n < |tokens| {
      var taken := Takes(g, s, tokens, n);
    }
  }

  /** The old accept leaves a wrong flag exactly when some token of the batch is rejected
      with the matcher, after all the tokens before it, at its end. */
  lemma OldAcceptBreaksFlagIff(g: Grammar, f: Fsm, tokens: seq<Token>)
    requires Agrees(g, f)
    ensures Agrees(g, OldAfter(g, f, tokens)) <==>
            f.terminated || forall i :: 0 <= i < |tokens| ==> !RejectedAtEnd(g, f.consumed, tokens, i)
  {
    OldRunTakes(g, f.consumed, tokens);
    var n := OldRun(g, f.consumed, tokens);
    forall i | 0 <= i < |tokens| && RejectedAtEnd(g, f.consumed, tokens, i)
      ensures i == n
    {
      RejectedWhereItStops(g, f.consumed, tokens, i);
    }
    if n < |tokens| && g.ends(f.consumed + tokens[..n]) {
      assert RejectedAtEnd(g, f.consumed, tokens, n);
    }
  }

  /** The old reset leaves a wrong flag exactly when the grammar had terminated. */
  lemma OldResetBreaksFlagIff(g: Grammar, f: Fsm)
    requires !g.ends([])
    ensures Agrees(g, OldReset(f)) <==> !f.terminated
  {
  }

  /** The patched accept differs from the old one only past the end of the grammar: same
      state, and the same verdict, whenever no token before the last is an ending one. */
  lemma SameBeforeTheEnd(g: Grammar, f: Fsm, tokens: seq<Token>)
    requires Agrees(g, f) && !f.terminated
    requires forall i :: 0 < i < |tokens| ==> !g.ends(f.consumed + tokens[..i])
    ensures OldAfter(g, f, tokens) == After(g, f, tokens)
    ensures Advances(g, f, tokens) <==> OldRun(g, f.consumed, tokens) == |tokens|
  {
    SameRun(g, f.consumed, tokens);
    var n := Run(g, f.consumed, tokens);
    if n == 0 {
      assert f.consumed + tokens[..0] == f.consumed;
    }
  }

  lemma {:induction false} SameRun(g: Grammar, s: seq<Token>, tokens: seq<Token>)
    requires !g.ends(s)
    requires forall i :: 0 < i < |tokens| ==> !g.ends(s + tokens[..i])
    ensures OldRun(g, s, tokens) == Run(g, s, tokens)
    decreases |tokens|
  {
    if tokens != [] && g.allowed(s + [tokens[0]]) {
      var next, rest := s + [tokens[0]], tokens[1..];
      if rest != [] {
        assert tokens[..1] == [tokens[0]];
        assert !g.ends(s + tokens[..1]);
        forall i | 0 < i < |rest|
          ensures !g.ends(next + rest[..i])
        {
          assert next + rest[..i] == s + tokens[..i + 1];
        }
        SameRun(g, next, rest);
      }
    }
  }

  /** The grammar of the single token 1. */
  const ONE := Grammar((s: seq<Token>) => s == [1], (s: seq<Token>) => s == [1])

  /** A batch with one token after the end: the old code forgets that it terminated, the
      patched code ignores the token and succeeds. */
  lemma TrailingToken()
    ensures !Agrees(ONE, OldAfter(ONE, FRESH, [1, 2]))
    ensures After(ONE, FRESH, [1, 2]) == Fsm([1], 1, true) && Advances(ONE, FRESH, [1, 2])
  {
    assert [1, 2][1..] == [2] && [1, 2][..1] == [1] && [] + [1] == [1];
    assert OldRun(ONE, [1], [2]) == 0 by {
      assert |[1] + [2]| == 2;
    }
    assert Run(ONE, [1], [2]) == 0;
  }
}
