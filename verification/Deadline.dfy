/** Nested deadlines carried by a context variable (engine/deadline.py), in one task. */
module Deadline {
  import opened Options
  import opened Numbers

  type ContextId = nat

  /** What setting the variable returns: its value before, good for one reset. */
  datatype Token = Token(before: Option<real>, used: bool)

  /** The expiry of a context entered now. */
  function Narrowed(existing: Option<real>, now: real, timeout: real): real {
    if existing.Some? then Min(now + timeout, existing.value) else now + timeout
  }

  datatype Entered = Entered(expiry: real, token: Token)

  /** Entering: the expiry, and the token for what was there before. */
  function Entering(ambient: Option<real>, now: real, timeout: real): Entered {
    Entered(Narrowed(ambient, now, timeout), Token(ambient, false))
  }

  /** Leaving: the variable's value, the token, and whether the reset raised because the token was used before. */
  function Leaving(ambient: Option<real>, token: Token): (Option<real>, Token, bool) {
    (if token.used then ambient else token.before, token.(used := true), token.used)
  }

  class ContextVar {
    var value: Option<real>

    constructor ()
      ensures value == None
    {
      value := None;
    }
  }

  class DeadlineContext {
    const timeout: real
    var expiry: real
    var token: Option<Token>

    constructor (timeout: real)
      requires timeout > 0.0
      ensures this.timeout == timeout && token == None
    {
      this.timeout, expiry, token := timeout, 0.0, None;
    }

    method Enter(ambient: ContextVar, now: real)
      modifies this, ambient
      ensures token.Some? && Entered(expiry, token.value) == Entering(old(ambient.value), now, timeout)
      ensures ambient.value == Some(expiry)
    {
      var newExpiry := now + timeout;
      if ambient.value.Some? {
        expiry := if newExpiry < ambient.value.value then newExpiry else ambient.value.value;
      } else {
        expiry := newExpiry;
      }
      token := Some(Token(ambient.value, false));
      ambient.value := Some(expiry);
    }

    /** Resetting with a token that has been used raises. */
    method Exit(ambient: ContextVar) returns (raised: bool)
      modifies this`token, ambient
      ensures if old(token).None? then !raised && token == None && ambient.value == old(ambient.value)
              else token.Some? && (ambient.value, token.value, raised) == Leaving(old(ambient.value), old(token).value)
    {
      raised := false;
      if token.Some? {
        raised := token.value.used;
        if !raised {
          ambient.value := token.value.before;
          token := Some(token.value.(used := true));
        }
      }
    }

    method Expired(now: real) returns (r: bool)
      ensures r <==> now >= expiry
    {
      return now >= expiry;
    }
  }

  function RemainingTime(ambient: Option<real>, now: real): Option<real> {
    if ambient.Some? then Some(ambient.value - now) else None
  }

  // ---- Runs ------------------------------------------------------------------------

  datatype Event = Open(id: ContextId, timeout: real, now: real) | Close(id: ContextId)

  /** The variable, every context ever entered, and whether an exit has raised. */
  datatype System = System(ambient: Option<real>, contexts: map<ContextId, Entered>, raised: bool)

  const START := System(None, map[], false)

  function Step(s: System, e: Event): System {
    match e
    case Open(id, timeout, now) =>
      var entered := Entering(s.ambient, now, timeout);
      s.(ambient := Some(entered.expiry), contexts := s.contexts[id := entered])
    case Close(id) =>
      if id !in s.contexts then s
      else
        var (ambient, token, raised) := Leaving(s.ambient, s.contexts[id].token);
        System(ambient, s.contexts[id := s.contexts[id].(token := token)], s.raised || raised)
  }

  function Run(es: seq<Event>): System {
    if es == [] then START else Step(Run(es[..|es| - 1]), es[|es| - 1])
  }

  /** An open context and the expiry it asked for. */
  datatype Frame = Frame(id: ContextId, wanted: real)

  /** The open contexts, outermost first, if openings and closings nest and no open context is reopened. */
  function OpenContexts(es: seq<Event>): Option<seq<Frame>> {
    if es == [] then Some([])
    else
      var before := OpenContexts(es[..|es| - 1]);
      if before.None? then None
      else
        match es[|es| - 1]
        case Open(id, timeout, now) =>
          if exists f :: f in before.value && f.id == id then None
          else Some(before.value + [Frame(id, now + timeout)])
        case Close(id) =>
          var n := |before.value|;
          if n == 0 || before.value[n - 1].id != id then None else Some(before.value[..n - 1])
  }

  /** The least expiry asked for. */
  function Tightest(open: seq<Frame>): Option<real> {
    if open == [] then None
    else
      var outer, last := Tightest(open[..|open| - 1]), open[|open| - 1].wanted;
      Some(if outer.Some? then Min(last, outer.value) else last)
  }

  /** Independent reading of Tightest: one of the expiries asked for, and none is less. */
  lemma {:induction false} TightestIsMinimum(open: seq<Frame>)
    ensures Tightest(open).None? <==> open == []
    ensures open != [] ==>
              && (exists i :: 0 <= i < |open| && open[i].wanted == Tightest(open).value)
              && forall i :: 0 <= i < |open| ==> Tightest(open).value <= open[i].wanted
  {
    if open != [] {
      var n := |open| - 1;
      TightestIsMinimum(open[..n]);
      if n > 0 {
        var i :| 0 <= i < n && open[..n][i].wanted == Tightest(open[..n]).value;
        assert open[i].wanted == Tightest(open[..n]).value;
        assert forall j :: 0 <= j < n ==> open[j] == open[..n][j];
      }
      assert open[n].wanted == Tightest(open).value || n > 0;
    }
  }

  ghost predicate Holds(s: System, open: seq<Frame>, i: nat)
    requires i < |open|
  {
    && open[i].id in s.contexts
    && s.contexts[open[i].id].token == Token(Tightest(open[..i]), false)
    && Some(s.contexts[open[i].id].expiry) == Tightest(open[..i + 1])
  }

  ghost predicate Tracks(s: System, open: seq<Frame>) {
    && s.ambient == Tightest(open) && !s.raised
    && (forall i, j :: 0 <= i < j < |open| ==> open[i].id != open[j].id)
    && forall i :: 0 <= i < |open| ==> Holds(s, open, i)
  }

  lemma {:induction false} RunTracks(es: seq<Event>)
    requires OpenContexts(es).Some?
    ensures Tracks(Run(es), OpenContexts(es).value)
  {
    if es != [] {
      RunTracks(es[..|es| - 1]);
      var s, open := Run(es[..|es| - 1]), OpenContexts(es[..|es| - 1]).value;
      match es[|es| - 1]
      case Open(id, timeout, now) => OpenTracks(s, open, id, timeout, now);
      case Close(id) => CloseTracks(s, open, id);
    }
  }

  lemma OpenTracks(s: System, open: seq<Frame>, id: ContextId, timeout: real, now: real)
    requires Tracks(s, open) && forall f :: f in open ==> f.id != id
    ensures Tracks(Step(s, Open(id, timeout, now)), open + [Frame(id, now + timeout)])
  {
    var s', open' := Step(s, Open(id, timeout, now)), open + [Frame(id, now + timeout)];
    assert open'[..|open|] == open && open'[..|open'|] == open';
    forall i | 0 <= i < |open'| ensures Holds(s', open', i) {
      if i < |open| {
        assert Holds(s, open, i) && open[i] in open;
        assert open'[..i] == open[..i] && open'[..i + 1] == open[..i + 1];
      }
    }
  }

  lemma CloseTracks(s: System, open: seq<Frame>, id: ContextId)
    requires Tracks(s, open) && open != [] && open[|open| - 1].id == id
    ensures Tracks(Step(s, Close(id)), open[..|open| - 1])
  {
    var n := |open| - 1;
    var s', open' := Step(s, Close(id)), open[..n];
    assert Holds(s, open, n);
    forall i | 0 <= i < n ensures Holds(s', open', i) {
      assert Holds(s, open, i);
      assert open'[..i] == open[..i] && open'[..i + 1] == open[..i + 1];
    }
  }

  /** While contexts nest, the ambient deadline is the least expiry asked for by an open one, and no exit raises. */
  lemma AmbientIsTightest(es: seq<Event>)
    requires OpenContexts(es).Some?
    ensures Run(es).ambient == Tightest(OpenContexts(es).value) && !Run(es).raised
  {
    RunTracks(es);
  }

  /** Leaving a context restores the deadline there was on entering it, whatever happened inside. */
  lemma ExitRestores(before: seq<Event>, inside: seq<Event>, id: ContextId, timeout: real, now: real)
    requires var es := before + [Open(id, timeout, now)] + inside + [Close(id)];
             && OpenContexts(before).Some? && OpenContexts(es) == OpenContexts(before)
    ensures Run(before + [Open(id, timeout, now)] + inside + [Close(id)]).ambient == Run(before).ambient
  {
    RunTracks(before);
    RunTracks(before + [Open(id, timeout, now)] + inside + [Close(id)]);
  }

  // ---- Exits that raise ---------------------------------------------------------------

  /** The last event on the context closed it, and it had been opened at all. */
  ghost predicate LeftAlready(es: seq<Event>, id: ContextId) {
    && (exists i :: 0 <= i < |es| && es[i].Open? && es[i].id == id)
    && exists j :: LastOn(es, id, j) && es[j].Close?
  }

  ghost predicate LastOn(es: seq<Event>, id: ContextId, j: int) {
    0 <= j < |es| && es[j].id == id && forall k :: j < k < |es| ==> es[k].id != id
  }

  /** A context is closed again with nothing but events on others since it was closed. */
  ghost predicate ClosesTwice(es: seq<Event>) {
    exists k :: ClosesAgain(es, k)
  }

  ghost predicate ClosesAgain(es: seq<Event>, k: int) {
    0 <= k < |es| && es[k].Close? && LeftAlready(es[..k], es[k].id)
  }

  lemma OpenedAppend(es: seq<Event>, e: Event, id: ContextId)
    ensures (exists i :: 0 <= i < |es + [e]| && (es + [e])[i].Open? && (es + [e])[i].id == id) <==>
            (e.Open? && e.id == id) || exists i :: 0 <= i < |es| && es[i].Open? && es[i].id == id
  {
    var all := es + [e];
    assert all[|es|] == e;
    if i :| 0 <= i < |es| && es[i].Open? && es[i].id == id {
      assert all[i] == es[i];
    }
  }

  lemma LastAppend(es: seq<Event>, e: Event, id: ContextId)
    ensures (exists j :: LastOn(es + [e], id, j) && (es + [e])[j].Close?) <==>
            if e.id == id then e.Close? else exists j :: LastOn(es, id, j) && es[j].Close?
  {
    var all := es + [e];
    assert all[|es|] == e;
    if e.id == id {
      assert LastOn(all, id, |es|);
    } else {
      if j :| LastOn(es, id, j) && es[j].Close? {
        assert LastOn(all, id, j) && all[j].Close?;
      }
      if j :| LastOn(all, id, j) && all[j].Close? {
        assert forall k :: j < k < |es| ==> es[k] == all[k];
        assert LastOn(es, id, j) && es[j].Close?;
      }
    }
  }

  lemma {:induction false} UsedIffLeft(es: seq<Event>, id: ContextId)
    ensures id in Run(es).contexts <==> exists i :: 0 <= i < |es| && es[i].Open? && es[i].id == id
    ensures id in Run(es).contexts && Run(es).contexts[id].token.used <==> LeftAlready(es, id)
  {
    if es != [] {
      var es', e := es[..|es| - 1], es[|es| - 1];
      assert es == es' + [e];
      UsedIffLeft(es', id);
      OpenedAppend(es', e, id);
      LastAppend(es', e, id);
    }
  }

  lemma ClosesTwiceAppend(es: seq<Event>, e: Event)
    ensures ClosesTwice(es + [e]) <==> ClosesTwice(es) || (e.Close? && LeftAlready(es, e.id))
  {
    var all := es + [e];
    assert all[|es|] == e && all[..|es|] == es;
    assert forall k :: 0 <= k < |es| ==> all[k] == es[k] && all[..k] == es[..k];
    if k :| ClosesAgain(es, k) {
      assert ClosesAgain(all, k);
    }
    if e.Close? && LeftAlready(es, e.id) {
      assert ClosesAgain(all, |es|);
    }
    if k :| ClosesAgain(all, k) {
      assert k < |es| ==> ClosesAgain(es, k);
    }
  }

  /** In every run, nested or not, some exit raises if and only if a context is closed twice without being opened
      in between. */
  lemma {:induction false} RaisesIffClosedTwice(es: seq<Event>)
    ensures Run(es).raised <==> ClosesTwice(es)
  {
    if es != [] {
      var es', e := es[..|es| - 1], es[|es| - 1];
      assert es == es' + [e];
      RaisesIffClosedTwice(es');
      UsedIffLeft(es', e.id);
      ClosesTwiceAppend(es', e);
    }
  }

  /** A context reopened while open has one token left for two exits: after any run the second of them raises,
      and the deadline it had set stays. */
  lemma ReenteredContextRaises(es: seq<Event>, id: ContextId, timeout: real, now: real, timeout': real, now': real)
    ensures var outer := Open(id, timeout, now);
            var end := Run(es + [outer] + [Open(id, timeout', now')] + [Close(id)] + [Close(id)]);
            end.raised && end.ambient == Run(es + [outer]).ambient
  {
    var outer, inner, c := Open(id, timeout, now), Open(id, timeout', now'), Close(id);
    One(es, outer);
    One(es + [outer], inner);
    One(es + [outer] + [inner], c);
    One(es + [outer] + [inner] + [c], c);
  }

  lemma One(es: seq<Event>, e: Event)
    ensures Run(es + [e]) == Step(Run(es), e)
  {
    assert (es + [e])[..|es|] == es;
  }
}
