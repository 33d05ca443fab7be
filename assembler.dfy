/**
 * The response assembler behind `HttpConn`'s parser callbacks: a
 * three-state machine over the header state that joins header-field and
 * header-value fragments, stores each completed pair in the response's
 * header map (the last value for a key wins), and collects the body.
 * Every fragment is cut at its first NUL, as copying it through a C string
 * does.
 */
module Assembler {
  import opened Text

  datatype HeaderState = FieldState | ValueState | Done

  /** The connection's parse state together with the response's header map. */
  datatype Assembly = Assembly(
    state: HeaderState,
    field: string,
    value: string,
    body: string,
    begun: bool,
    headers: map<string, string>)

  /** What a callback leaves behind and the code it returns to the parser. */
  datatype Step = Step(next: Assembly, rc: int)

  /** The callbacks the parser makes, in the order it makes them. */
  datatype Event =
    | Begin
    | Field(text: string)
    | Value(text: string)
    | HeadersComplete
    | Body(text: string)

  /** `messageBeginCb`: refused when a message already began or no request is bound. */
  function OnBegin(a: Assembly, bound: bool): Step {
    if a.begun then Step(a, 1)
    else if !bound then Step(a, 1)
    else Step(a.(begun := true), 0)
  }

  /** `flushHeaders`: store the pending pair, then empty both buffers. */
  function Flush(a: Assembly): Assembly {
    a.(headers := a.headers[a.field := a.value], field := "", value := "")
  }

  /** `headerFieldCb`. */
  function OnField(a: Assembly, fragment: string): Step {
    if a.state == Done then Step(a, 1)
    else
      var b := if a.state == ValueState then Flush(a).(state := FieldState) else a;
      Step(b.(field := b.field + TakeUntilNul(fragment)), 0)
  }

  /** `headerValueCb`. */
  function OnValue(a: Assembly, fragment: string): Step {
    if a.state == Done then Step(a, 1)
    else Step(a.(state := ValueState, value := a.value + TakeUntilNul(fragment)), 0)
  }

  /** `headersCompleteCb`: flushes unconditionally, even with nothing pending. */
  function OnHeadersComplete(a: Assembly): Step {
    Step(Flush(a.(state := Done)), 0)
  }

  /** `bodyCb`. */
  function OnBody(a: Assembly, fragment: string): Step {
    Step(a.(body := a.body + TakeUntilNul(fragment)), 0)
  }

  /** The callback an event invokes; `bound` says whether a request is bound to the connection. */
  function Apply(a: Assembly, e: Event, bound: bool): Step {
    match e
    case Begin => OnBegin(a, bound)
    case Field(t) => OnField(a, t)
    case Value(t) => OnValue(a, t)
    case HeadersComplete => OnHeadersComplete(a)
    case Body(t) => OnBody(a, t)
  }

  /**
   * The parser feeding events to the callbacks; it stops at the first one
   * that returns non-zero. The flag says whether it stopped that way.
   */
  function Run(a: Assembly, events: seq<Event>, bound: bool): (Assembly, bool)
    decreases |events|
  {
    if events == [] then (a, false)
    else
      var s := Apply(a, events[0], bound);
      if s.rc != 0 then (s.next, true) else Run(s.next, events[1..], bound)
  }

  lemma {:induction false} RunAppend(a: Assembly, e1: seq<Event>, e2: seq<Event>, bound: bool)
    ensures var r := Run(a, e1, bound);
      Run(a, e1 + e2, bound) == if r.1 then r else Run(r.0, e2, bound)
    decreases |e1|
  {
    if e1 == [] {
      assert e1 + e2 == e2;
    } else {
      assert (e1 + e2)[0] == e1[0];
      assert (e1 + e2)[1..] == e1[1..] + e2;
      var s := Apply(a, e1[0], bound);
      if s.rc == 0 {
        RunAppend(s.next, e1[1..], e2, bound);
      }
    }
  }

  /** A single event. */
  lemma RunOne(a: Assembly, e: Event, bound: bool)
    ensures Run(a, [e], bound) == (Apply(a, e, bound).next, Apply(a, e, bound).rc != 0)
  {
    assert [e][1..] == [];
  }

  /** The fragments joined after each is cut at its first NUL. */
  function Joined(fragments: seq<string>): string {
    if fragments == [] then "" else Joined(fragments[..|fragments| - 1]) + TakeUntilNul(fragments[|fragments| - 1])
  }

  function FieldEvents(fragments: seq<string>): (r: seq<Event>)
    ensures |r| == |fragments|
    ensures forall i :: 0 <= i < |r| ==> r[i] == Field(fragments[i])
  {
    if fragments == [] then [] else FieldEvents(fragments[..|fragments| - 1]) + [Field(fragments[|fragments| - 1])]
  }

  function ValueEvents(fragments: seq<string>): (r: seq<Event>)
    ensures |r| == |fragments|
    ensures forall i :: 0 <= i < |r| ==> r[i] == Value(fragments[i])
  {
    if fragments == [] then [] else ValueEvents(fragments[..|fragments| - 1]) + [Value(fragments[|fragments| - 1])]
  }

  function BodyEvents(fragments: seq<string>): (r: seq<Event>)
    ensures |r| == |fragments|
    ensures forall i :: 0 <= i < |r| ==> r[i] == Body(fragments[i])
  {
    if fragments == [] then [] else BodyEvents(fragments[..|fragments| - 1]) + [Body(fragments[|fragments| - 1])]
  }

  /** One field fragment in the FIELD state is appended to the pending field. */
  lemma FieldStep(a: Assembly, x: string, bound: bool)
    requires a.state == FieldState
    ensures Run(a, [Field(x)], bound) == (a.(field := a.field + TakeUntilNul(x)), false)
  {
    RunOne(a, Field(x), bound);
    assert "" + TakeUntilNul(x) == TakeUntilNul(x);
  }

  /** One value fragment is appended to the pending value and leaves the state VALUE. */
  lemma ValueStep(a: Assembly, x: string, bound: bool)
    requires a.state != Done
    ensures Run(a, [Value(x)], bound) == (a.(state := ValueState, value := a.value + TakeUntilNul(x)), false)
  {
    RunOne(a, Value(x), bound);
  }

  /** One body fragment is appended to the body. */
  lemma BodyStep(a: Assembly, x: string, bound: bool)
    ensures Run(a, [Body(x)], bound) == (a.(body := a.body + TakeUntilNul(x)), false)
  {
    RunOne(a, Body(x), bound);
  }

  /** Joining one more fragment appends its part before the first NUL. */
  lemma JoinedSnoc(a: string, fragments: seq<string>)
    requires fragments != []
    ensures a + Joined(fragments[..|fragments| - 1]) + TakeUntilNul(fragments[|fragments| - 1]) == a + Joined(fragments)
  {
  }

  /** Consecutive field fragments are joined onto the pending field. */
  lemma {:induction false} FieldFragmentsJoin(a: Assembly, fragments: seq<string>, bound: bool)
    requires a.state == FieldState
    ensures Run(a, FieldEvents(fragments), bound) == (a.(field := a.field + Joined(fragments)), false)
  {
    if fragments == [] {
      assert a.field + Joined(fragments) == a.field;
    } else {
      var init := fragments[..|fragments| - 1];
      var last := fragments[|fragments| - 1];
      FieldFragmentsJoin(a, init, bound);
      RunAppend(a, FieldEvents(init), [Field(last)], bound);
      FieldStep(a.(field := a.field + Joined(init)), last, bound);
      JoinedSnoc(a.field, fragments);
    }
  }

  /** Consecutive value fragments are joined onto the pending value and leave the state VALUE. */
  lemma {:induction false} ValueFragmentsJoin(a: Assembly, fragments: seq<string>, bound: bool)
    requires a.state != Done && fragments != []
    ensures Run(a, ValueEvents(fragments), bound) == (a.(state := ValueState, value := a.value + Joined(fragments)), false)
  {
    var init := fragments[..|fragments| - 1];
    var last := fragments[|fragments| - 1];
    JoinedSnoc(a.value, fragments);
    if init == [] {
      assert ValueEvents(fragments) == [Value(last)];
      ValueStep(a, last, bound);
      assert a.value + Joined(init) == a.value;
    } else {
      ValueFragmentsJoin(a, init, bound);
      RunAppend(a, ValueEvents(init), [Value(last)], bound);
      ValueStep(a.(state := ValueState, value := a.value + Joined(init)), last, bound);
    }
  }

  /** Body fragments are appended to the body, in any header state. */
  lemma {:induction false} BodyFragmentsJoin(a: Assembly, fragments: seq<string>, bound: bool)
    ensures Run(a, BodyEvents(fragments), bound) == (a.(body := a.body + Joined(fragments)), false)
  {
    if fragments == [] {
      assert a.body + Joined(fragments) == a.body;
    } else {
      var init := fragments[..|fragments| - 1];
      var last := fragments[|fragments| - 1];
      BodyFragmentsJoin(a, init, bound);
      RunAppend(a, BodyEvents(init), [Body(last)], bound);
      BodyStep(a.(body := a.body + Joined(init)), last, bound);
      JoinedSnoc(a.body, fragments);
    }
  }

  /** One header as the parser reports it: field fragments, then value fragments. */
  datatype Header = Header(field: seq<string>, value: seq<string>)

  predicate Reported(h: Header) {
    h.field != [] && h.value != []
  }

  function HeaderEvents(h: Header): seq<Event> {
    FieldEvents(h.field) + ValueEvents(h.value)
  }

  function AllEvents(hs: seq<Header>): seq<Event> {
    if hs == [] then [] else AllEvents(hs[..|hs| - 1]) + HeaderEvents(hs[|hs| - 1])
  }

  /** The field/value pairs the headers stand for. */
  function Pairs(hs: seq<Header>): (r: seq<(string, string)>)
    ensures |r| == |hs|
    ensures forall i :: 0 <= i < |hs| ==> r[i] == (Joined(hs[i].field), Joined(hs[i].value))
  {
    if hs == [] then [] else Pairs(hs[..|hs| - 1]) + [(Joined(hs[|hs| - 1].field), Joined(hs[|hs| - 1].value))]
  }

  /** Storing the pairs one after another into a map: a later value replaces an earlier one. */
  function Store(m: map<string, string>, pairs: seq<(string, string)>): map<string, string> {
    if pairs == [] then m
    else Store(m, pairs[..|pairs| - 1])[pairs[|pairs| - 1].0 := pairs[|pairs| - 1].1]
  }

  /** A field after a value flushes the pending pair and starts a new field. */
  lemma NextHeader(a: Assembly, h: Header, bound: bool)
    requires a.state == ValueState && Reported(h)
    ensures Run(a, HeaderEvents(h), bound) ==
      (a.(state := ValueState, field := Joined(h.field), value := Joined(h.value), headers := a.headers[a.field := a.value]), false)
  {
    var first := h.field[0];
    var fs := h.field[1..];
    assert h.field == [first] + fs;
    var values := ValueEvents(h.value);
    FieldEventsCons(first, fs);
    assert HeaderEvents(h) == [Field(first)] + (FieldEvents(fs) + values);
    RunAppend(a, [Field(first)], FieldEvents(fs) + values, bound);
    FieldAfterValue(a, first, bound);
    HeaderFrom(Flush(a).(state := FieldState, field := TakeUntilNul(first)), fs, h.value, bound);
    JoinedCons(first, fs);
  }

  /** The first field fragment after a value flushes the pending pair. */
  lemma FieldAfterValue(a: Assembly, x: string, bound: bool)
    requires a.state == ValueState
    ensures Run(a, [Field(x)], bound) == (Flush(a).(state := FieldState, field := TakeUntilNul(x)), false)
  {
    RunOne(a, Field(x), bound);
    assert "" + TakeUntilNul(x) == TakeUntilNul(x);
  }

  /**
   * From the FIELD state with no pending value, field fragments and then
   * value fragments leave both joined in the buffers.
   */
  lemma HeaderFrom(a: Assembly, fs: seq<string>, vs: seq<string>, bound: bool)
    requires a.state == FieldState && a.value == "" && vs != []
    ensures Run(a, FieldEvents(fs) + ValueEvents(vs), bound) ==
      (a.(state := ValueState, field := a.field + Joined(fs), value := Joined(vs)), false)
  {
    FieldFragmentsJoin(a, fs, bound);
    RunAppend(a, FieldEvents(fs), ValueEvents(vs), bound);
    ValueFragmentsJoin(a.(field := a.field + Joined(fs)), vs, bound);
    assert a.value + Joined(vs) == Joined(vs);
  }

  lemma {:induction false} FieldEventsCons(x: string, xs: seq<string>)
    ensures FieldEvents([x] + xs) == [Field(x)] + FieldEvents(xs)
  {
    var l := FieldEvents([x] + xs);
    var r := [Field(x)] + FieldEvents(xs);
    assert |l| == |r|;
    forall i | 0 <= i < |l| ensures l[i] == r[i] {
      if i > 0 {
        assert ([x] + xs)[i] == xs[i - 1];
      }
    }
  }

  lemma {:induction false} JoinedCons(x: string, xs: seq<string>)
    ensures Joined([x] + xs) == TakeUntilNul(x) + Joined(xs)
  {
    if xs == [] {
      assert [x] + xs == [x];
      assert [x][..0] == [];
    } else {
      var init := xs[..|xs| - 1];
      assert ([x] + xs)[..|xs|] == [x] + init;
      JoinedCons(x, init);
    }
  }

  /** The first header starts from empty buffers and flushes nothing. */
  lemma FirstHeader(a: Assembly, h: Header, bound: bool)
    requires a.state == FieldState && a.field == "" && a.value == "" && Reported(h)
    ensures Run(a, HeaderEvents(h), bound) ==
      (a.(state := ValueState, field := Joined(h.field), value := Joined(h.value)), false)
  {
    HeaderFrom(a, h.field, h.value, bound);
    assert a.field + Joined(h.field) == Joined(h.field);
  }

  /**
   * After one or more headers the last one is still pending in the
   * buffers and all earlier ones are stored.
   */
  lemma {:induction false} HeadersPending(a: Assembly, hs: seq<Header>, bound: bool)
    requires a.state == FieldState && a.field == "" && a.value == ""
    requires hs != [] && forall i :: 0 <= i < |hs| ==> Reported(hs[i])
    ensures var last := hs[|hs| - 1];
      Run(a, AllEvents(hs), bound) ==
        (a.(state := ValueState, field := Joined(last.field), value := Joined(last.value),
            headers := Store(a.headers, Pairs(hs[..|hs| - 1]))), false)
  {
    var init := hs[..|hs| - 1];
    var last := hs[|hs| - 1];
    if init == [] {
      assert AllEvents(hs) == [] + HeaderEvents(last);
      assert AllEvents(hs) == HeaderEvents(last);
      FirstHeader(a, last, bound);
    } else {
      HeadersPending(a, init, bound);
      RunAppend(a, AllEvents(init), HeaderEvents(last), bound);
      var prev := init[|init| - 1];
      var b := Run(a, AllEvents(init), bound).0;
      NextHeader(b, last, bound);
      LastHeaderStored(a.headers, init);
    }
  }

  /**
   * Header assembly over a whole header block: starting from empty
   * buffers, the headers and then headers-complete leave the state DONE,
   * both buffers empty, the body untouched and every pair stored with the
   * last value winning. With no headers at all, headers-complete still
   * stores the empty key with the empty value.
   */
  lemma HeadersAssembled(a: Assembly, hs: seq<Header>, bound: bool)
    requires a.state == FieldState && a.field == "" && a.value == ""
    requires forall i :: 0 <= i < |hs| ==> Reported(hs[i])
    ensures var r := Run(a, AllEvents(hs) + [HeadersComplete], bound);
      && !r.1
      && r.0.state == Done && r.0.field == "" && r.0.value == ""
      && r.0.body == a.body && r.0.begun == a.begun
      && r.0.headers == if hs == [] then a.headers["" := ""] else Store(a.headers, Pairs(hs))
  {
    if hs == [] {
      assert AllEvents(hs) + [HeadersComplete] == [HeadersComplete];
      CompleteStep(a, bound);
    } else {
      CompleteAfterHeaders(a, hs, bound);
    }
  }

  /** Headers-complete flushes whatever is pending and never refuses. */
  lemma CompleteStep(a: Assembly, bound: bool)
    ensures Run(a, [HeadersComplete], bound) == (Flush(a.(state := Done)), false)
  {
    RunOne(a, HeadersComplete, bound);
  }

  /** One or more headers followed by headers-complete store every pair. */
  lemma CompleteAfterHeaders(a: Assembly, hs: seq<Header>, bound: bool)
    requires a.state == FieldState && a.field == "" && a.value == ""
    requires hs != [] && forall i :: 0 <= i < |hs| ==> Reported(hs[i])
    ensures Run(a, AllEvents(hs) + [HeadersComplete], bound) ==
      (a.(state := Done, field := "", value := "", headers := Store(a.headers, Pairs(hs))), false)
  {
    RunAppend(a, AllEvents(hs), [HeadersComplete], bound);
    HeadersPending(a, hs, bound);
    CompleteStep(Run(a, AllEvents(hs), bound).0, bound);
    LastHeaderStored(a.headers, hs);
  }

  lemma LastHeaderStored(m: map<string, string>, hs: seq<Header>)
    requires hs != []
    ensures var last := hs[|hs| - 1];
      Store(m, Pairs(hs[..|hs| - 1]))[Joined(last.field) := Joined(last.value)] == Store(m, Pairs(hs))
  {
    var last := hs[|hs| - 1];
    assert Pairs(hs) == Pairs(hs[..|hs| - 1]) + [(Joined(last.field), Joined(last.value))];
    assert Pairs(hs)[..|hs| - 1] == Pairs(hs[..|hs| - 1]);
  }

  /** A stored key maps to the value of the last pair that carries it. */
  lemma {:induction false} LastValueWins(m: map<string, string>, pairs: seq<(string, string)>, j: nat)
    requires j < |pairs|
    requires forall i :: j < i < |pairs| ==> pairs[i].0 != pairs[j].0
    ensures pairs[j].0 in Store(m, pairs) && Store(m, pairs)[pairs[j].0] == pairs[j].1
  {
    var init := pairs[..|pairs| - 1];
    if j < |pairs| - 1 {
      LastValueWins(m, init, j);
    }
  }

  /** A key no pair carries keeps whatever the map held. */
  lemma {:induction false} UntouchedKey(m: map<string, string>, pairs: seq<(string, string)>, k: string)
    requires forall i :: 0 <= i < |pairs| ==> pairs[i].0 != k
    ensures (k in Store(m, pairs)) == (k in m)
    ensures k in m ==> Store(m, pairs)[k] == m[k]
  {
    if pairs != [] {
      UntouchedKey(m, pairs[..|pairs| - 1], k);
    }
  }

  /**
   * Once the headers are done, a header field or value stops the parser
   * with error code 1; body fragments before it are still collected and
   * the header map is left alone.
   */
  lemma {:induction false} LateHeaderRejected(a: Assembly, bodies: seq<string>, e: Event, rest: seq<Event>, bound: bool)
    requires a.state == Done && (e.Field? || e.Value?)
    ensures Run(a, BodyEvents(bodies) + [e] + rest, bound) == (a.(body := a.body + Joined(bodies)), true)
    ensures Apply(a, e, bound).rc == 1
  {
    BodyFragmentsJoin(a, bodies, bound);
    RunAppend(a, BodyEvents(bodies), [e] + rest, bound);
    assert BodyEvents(bodies) + [e] + rest == BodyEvents(bodies) + ([e] + rest);
  }

  /**
   * `messageBegun` is sticky: begin succeeds exactly when no message began
   * and a request is bound; once set, no callback clears it, so a second
   * begin is refused.
   */
  lemma {:induction false} BegunSticky(a: Assembly, events: seq<Event>, bound: bool)
    ensures OnBegin(a, bound).rc == 0 <==> !a.begun && bound
    ensures OnBegin(a, bound).next.begun == (a.begun || bound)
    ensures a.begun ==> Run(a, events, bound).0.begun
    ensures a.begun && events != [] && events[0] == Begin ==> Run(a, events, bound) == (a, true)
    decreases |events|
  {
    if a.begun && events != [] {
      var s := Apply(a, events[0], bound);
      assert s.next.begun;
      if s.rc == 0 {
        BegunSticky(s.next, events[1..], bound);
      }
    }
  }
}
