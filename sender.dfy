/** `sendMessages` in index.js: for each requested number, in order, build
    the adapter address, ask the adapter whether the number is registered,
    send when it is, then pause; an error thrown inside one iteration is
    caught and the loop goes on with the next number.

    The adapter and the random pause are an oracle: one `Answers` per number
    says what `isRegisteredUser` and `sendMessage` do and which integer the
    random draw picks. What the loop does to the adapter is recorded as a
    trace of `Call`s; what the source logs per number is kept as a `Result`. */
module Sender {
  import opened JsValues

  /** The adapter's addressing suffix for a private chat. */
  const Suffix := "@c.us"

  /** `String.prototype.includes`: `t` occurs somewhere in `s`. */
  predicate Includes(s: string, t: string)
    decreases |s|
  {
    if |t| > |s| then false
    else s[..|t|] == t || Includes(s[1..], t)
  }

  /** `t` occurs in `s` starting at index `i`. */
  predicate OccursAt(s: string, t: string, i: int)
  {
    0 <= i <= |s| - |t| && s[i..i + |t|] == t
  }

  /** `Includes` agrees with the positional definition of an occurrence. */
  lemma {:induction false} IncludesIsOccurrence(s: string, t: string)
    ensures Includes(s, t) <==> exists i :: OccursAt(s, t, i)
    decreases |s|
  {
    if |t| > |s| {
    } else if s[..|t|] == t {
      assert OccursAt(s, t, 0);
    } else {
      IncludesIsOccurrence(s[1..], t);
      if Includes(s, t) {
        var j :| OccursAt(s[1..], t, j);
        SliceOfTail(s, j + 1, |t|);
        assert OccursAt(s, t, j + 1);
      } else {
        assert !Includes(s[1..], t);
        forall i | 0 <= i <= |s| - |t| ensures !OccursAt(s, t, i) {
          if i == 0 {
            assert s[i..i + |t|] == s[..|t|];
          } else {
            SliceOfTail(s, i, |t|);
            assert !OccursAt(s[1..], t, i - 1);
          }
        }
      }
    }
  }

  lemma SliceOfTail(s: string, i: int, n: int)
    requires 1 <= i && 0 <= n && i + n <= |s|
    ensures s[i..i + n] == s[1..][i - 1..i - 1 + n]
  {
    var u, v := s[i..i + n], s[1..][i - 1..i - 1 + n];
    assert |u| == |v|;
    forall k | 0 <= k < n ensures u[k] == v[k] {
    }
  }

  lemma {:induction false} IncludesAppended(s: string, t: string)
    ensures Includes(s + t, t)
    decreases |s|
  {
    if |s| == 0 {
      assert (s + t)[..|t|] == t;
    } else if (s + t)[..|t|] != t {
      assert (s + t)[1..] == s[1..] + t;
      IncludesAppended(s[1..], t);
    }
  }

  /** The address for a number (index.js line 223): the suffix is appended
      only when the number does not already contain it anywhere. */
  function Format(number: string): (r: string)
    ensures Includes(r, Suffix)
    ensures r == number || r == number + Suffix
    ensures r == number <==> Includes(number, Suffix)
  {
    if Includes(number, Suffix) then number
    else
      IncludesAppended(number, Suffix);
      number + Suffix
  }

  /** Formatting an address again leaves it unchanged. */
  lemma FormatIsIdempotent(number: string)
    ensures Format(Format(number)) == Format(number)
  {
  }

  /** The test is a containment test, not a suffix test: a number that holds
      the suffix in the middle is used as it is. */
  lemma FormatKeepsInnerSuffix()
    ensures Format("1@c.us2") == "1@c.us2"
  {
    assert "1@c.us2"[1..] == "@c.us2";
    assert "@c.us2"[..|Suffix|] == Suffix;
  }

  /** What `isRegisteredUser` did: resolved with a boolean or threw. */
  datatype Query = Registered(yes: bool) | QueryThrows(reason: string)

  /** What `sendMessage` did, if it was called. */
  datatype Delivery = Delivered | SendThrows(reason: string)

  /** The oracle for one number: the adapter's two answers and the random
      draw, the integer that `Math.floor(Math.random() * (max - min + 1))`
      yields. */
  datatype Answers = Answers(query: Query, delivery: Delivery, draw: nat)

  /** The adapter calls and the pauses, in the order the loop makes them. */
  datatype Call =
    | CheckRegistered(id: string)
    | SendMessage(to: string, message: JsValue)
    | Pause(ms: int)

  /** The per-number outcome the source reports in its log. */
  datatype Result = Sent | NotRegistered | Failed(reason: string)

  datatype Visit = Visit(calls: seq<Call>, result: Result)

  /** A whole run: the trace, one result per number processed, and whether
      the loop was cut short by an error thrown outside the per-number
      `try` (formatting a number that is not a string). */
  datatype Run = Run(calls: seq<Call>, results: seq<Result>, aborted: bool)

  /** One iteration of the loop for a number that is a string. */
  function VisitNumber(number: string, message: JsValue, a: Answers, minDelay: int): (v: Visit)
    // the query always comes first, at the formatted address
    ensures |v.calls| >= 1 && v.calls[0] == CheckRegistered(Format(number))
    // the iteration fails exactly when one of the two adapter calls throws
    ensures v.result.Failed? <==> a.query.QueryThrows? || (a.query == Registered(true) && a.delivery.SendThrows?)
  {
    var id := Format(number);
    match a.query
    case QueryThrows(reason) =>
      Visit([CheckRegistered(id)], Failed(reason))
    case Registered(yes) =>
      if !yes then
        Visit([CheckRegistered(id), Pause(minDelay + a.draw)], NotRegistered)
      else
        match a.delivery
        case SendThrows(reason) =>
          Visit([CheckRegistered(id), SendMessage(id, message)], Failed(reason))
        case Delivered =>
          Visit([CheckRegistered(id), SendMessage(id, message), Pause(minDelay + a.draw)], Sent)
  }

  /** The whole loop, number by number. */
  function Process(numbers: seq<JsValue>, message: JsValue, answers: seq<Answers>, minDelay: int): (r: Run)
    requires |answers| >= |numbers|
    // one result per number reached; the loop is cut short exactly when it
    // reaches an element that is not a string, and it stops right there
    ensures |r.results| <= |numbers|
    ensures r.aborted <==> |r.results| < |numbers|
    ensures r.aborted ==> !numbers[|r.results|].Str?
    decreases |numbers|
  {
    if numbers == [] then Run([], [], false)
    else if !numbers[0].Str? then Run([], [], true)
    else
      var v := VisitNumber(numbers[0].s, message, answers[0], minDelay);
      var rest := Process(numbers[1..], message, answers[1..], minDelay);
      Run(v.calls + rest.calls, [v.result] + rest.results, rest.aborted)
  }

  function Prepend(calls: seq<Call>, results: seq<Result>, run: Run): Run
  {
    Run(calls + run.calls, results + run.results, run.aborted)
  }

  /** The body of the per-number `try`: query, send when registered, then
      pause; a throw skips the rest of the body. */
  method SendOne(number: string, message: JsValue, a: Answers, minDelay: int)
    returns (step: seq<Call>, result: Result)
    ensures Visit(step, result) == VisitNumber(number, message, a, minDelay)
  {
    var id := Format(number);
    step := [CheckRegistered(id)];
    match a.query {
      case QueryThrows(reason) =>
        result := Failed(reason);
      case Registered(yes) =>
        if yes {
          step := step + [SendMessage(id, message)];
          match a.delivery {
            case SendThrows(reason) =>
              result := Failed(reason);
            case Delivered =>
              step := step + [Pause(minDelay + a.draw)];
              result := Sent;
          }
        } else {
          step := step + [Pause(minDelay + a.draw)];
          result := NotRegistered;
        }
    }
  }

  /** The `for…of` loop of `sendMessages`, one number per iteration. */
  method SendMessages(numbers: seq<JsValue>, message: JsValue, answers: seq<Answers>, minDelay: int)
    returns (run: Run)
    requires |answers| >= |numbers|
    ensures run == Process(numbers, message, answers, minDelay)
  {
    var calls: seq<Call> := [];
    var results: seq<Result> := [];
    var i := 0;
    while i < |numbers|
      invariant 0 <= i <= |numbers|
      invariant Process(numbers, message, answers, minDelay)
             == Prepend(calls, results, Process(numbers[i..], message, answers[i..], minDelay))
    {
      var number := numbers[i];
      if !number.Str? {
        // `number.includes` throws before the per-number `try`
        ProcessStops(numbers, message, answers, minDelay, i, calls, results);
        return Run(calls, results, true);
      }
      var step, result := SendOne(number.s, message, answers[i], minDelay);
      ProcessAdvances(numbers, message, answers, minDelay, i, calls, results, step, result);
      calls, results := calls + step, results + [result];
      i := i + 1;
    }
    assert calls + [] == calls && results + [] == results;
    run := Run(calls, results, false);
  }

  /** The loop from index `i` on: it stops at a number that is not a string,
      and otherwise visits `numbers[i]` and carries on from `i + 1`. */
  lemma ProcessFrom(numbers: seq<JsValue>, message: JsValue, answers: seq<Answers>, minDelay: int, i: int)
    requires |answers| >= |numbers| && 0 <= i < |numbers|
    ensures !numbers[i].Str? ==> Process(numbers[i..], message, answers[i..], minDelay) == Run([], [], true)
    ensures numbers[i].Str? ==>
              var v := VisitNumber(numbers[i].s, message, answers[i], minDelay);
              Process(numbers[i..], message, answers[i..], minDelay)
              == Prepend(v.calls, [v.result], Process(numbers[i + 1..], message, answers[i + 1..], minDelay))
  {
    assert numbers[i..][1..] == numbers[i + 1..] && answers[i..][1..] == answers[i + 1..];
  }

  /** The loop invariant of `SendMessages` survives an iteration that visits
      a string number. */
  lemma ProcessAdvances(numbers: seq<JsValue>, message: JsValue, answers: seq<Answers>, minDelay: int,
                        i: int, calls: seq<Call>, results: seq<Result>, step: seq<Call>, result: Result)
    requires |answers| >= |numbers| && 0 <= i < |numbers| && numbers[i].Str?
    requires Visit(step, result) == VisitNumber(numbers[i].s, message, answers[i], minDelay)
    requires Process(numbers, message, answers, minDelay)
          == Prepend(calls, results, Process(numbers[i..], message, answers[i..], minDelay))
    ensures Process(numbers, message, answers, minDelay)
         == Prepend(calls + step, results + [result], Process(numbers[i + 1..], message, answers[i + 1..], minDelay))
  {
    ProcessFrom(numbers, message, answers, minDelay, i);
    PrependTwice(calls, results, step, [result], Process(numbers[i + 1..], message, answers[i + 1..], minDelay));
  }

  /** At an element that is not a string the run ends, aborted, with what
      was gathered so far. */
  lemma ProcessStops(numbers: seq<JsValue>, message: JsValue, answers: seq<Answers>, minDelay: int,
                     i: int, calls: seq<Call>, results: seq<Result>)
    requires |answers| >= |numbers| && 0 <= i < |numbers| && !numbers[i].Str?
    requires Process(numbers, message, answers, minDelay)
          == Prepend(calls, results, Process(numbers[i..], message, answers[i..], minDelay))
    ensures Process(numbers, message, answers, minDelay) == Run(calls, results, true)
  {
    ProcessFrom(numbers, message, answers, minDelay, i);
    assert calls + [] == calls && results + [] == results;
  }

  lemma PrependTwice(calls: seq<Call>, results: seq<Result>, calls': seq<Call>, results': seq<Result>, run: Run)
    ensures Prepend(calls, results, Prepend(calls', results', run)) == Prepend(calls + calls', results + results', run)
  {
    assert calls + (calls' + run.calls) == (calls + calls') + run.calls;
    assert results + (results' + run.results) == (results + results') + run.results;
  }

  /** The ids asked about, in order. */
  function Checked(calls: seq<Call>): seq<string>
  {
    if calls == [] then []
    else (if calls[0].CheckRegistered? then [calls[0].id] else []) + Checked(calls[1..])
  }

  /** The ids sent to, in order. */
  function Targets(calls: seq<Call>): seq<string>
  {
    if calls == [] then []
    else (if calls[0].SendMessage? then [calls[0].to] else []) + Targets(calls[1..])
  }

  /** The pause lengths, in order. */
  function Pauses(calls: seq<Call>): seq<int>
  {
    if calls == [] then []
    else (if calls[0].Pause? then [calls[0].ms] else []) + Pauses(calls[1..])
  }

  lemma {:induction false} CheckedConcat(a: seq<Call>, b: seq<Call>)
    ensures Checked(a + b) == Checked(a) + Checked(b)
  {
    if a == [] {
      assert a + b == b;
    } else {
      var head := if a[0].CheckRegistered? then [a[0].id] else [];
      assert (a + b)[0] == a[0] && (a + b)[1..] == a[1..] + b;
      CheckedConcat(a[1..], b);
      calc {
        Checked(a + b);
        head + Checked(a[1..] + b);
        head + (Checked(a[1..]) + Checked(b));
        (head + Checked(a[1..])) + Checked(b);
      }
    }
  }

  lemma {:induction false} TargetsConcat(a: seq<Call>, b: seq<Call>)
    ensures Targets(a + b) == Targets(a) + Targets(b)
  {
    if a == [] {
      assert a + b == b;
    } else {
      var head := if a[0].SendMessage? then [a[0].to] else [];
      assert (a + b)[0] == a[0] && (a + b)[1..] == a[1..] + b;
      TargetsConcat(a[1..], b);
      calc {
        Targets(a + b);
        head + Targets(a[1..] + b);
        head + (Targets(a[1..]) + Targets(b));
        (head + Targets(a[1..])) + Targets(b);
      }
    }
  }

  lemma {:induction false} PausesConcat(a: seq<Call>, b: seq<Call>)
    ensures Pauses(a + b) == Pauses(a) + Pauses(b)
  {
    if a == [] {
      assert a + b == b;
    } else {
      var head := if a[0].Pause? then [a[0].ms] else [];
      assert (a + b)[0] == a[0] && (a + b)[1..] == a[1..] + b;
      PausesConcat(a[1..], b);
      calc {
        Pauses(a + b);
        head + Pauses(a[1..] + b);
        head + (Pauses(a[1..]) + Pauses(b));
        (head + Pauses(a[1..])) + Pauses(b);
      }
    }
  }

  lemma ProjectionsOfOne(c: Call)
    ensures Checked([c]) == if c.CheckRegistered? then [c.id] else []
    ensures Targets([c]) == if c.SendMessage? then [c.to] else []
    ensures Pauses([c]) == if c.Pause? then [c.ms] else []
  {
    assert [c][1..] == [];
  }

  /** The projections of a two-call trace. */
  lemma ProjectionsOfTwo(c: Call, d: Call)
    ensures Checked([c, d]) == Checked([c]) + Checked([d])
    ensures Targets([c, d]) == Targets([c]) + Targets([d])
    ensures Pauses([c, d]) == Pauses([c]) + Pauses([d])
  {
    assert [c, d] == [c] + [d];
    CheckedConcat([c], [d]);
    TargetsConcat([c], [d]);
    PausesConcat([c], [d]);
  }

  /** The projections of a three-call trace. */
  lemma ProjectionsOfThree(c: Call, d: Call, e: Call)
    ensures Checked([c, d, e]) == Checked([c, d]) + Checked([e])
    ensures Targets([c, d, e]) == Targets([c, d]) + Targets([e])
    ensures Pauses([c, d, e]) == Pauses([c, d]) + Pauses([e])
  {
    assert [c, d, e] == [c, d] + [e];
    CheckedConcat([c, d], [e]);
    TargetsConcat([c, d], [e]);
    PausesConcat([c, d], [e]);
  }

  /** What one iteration does, call by call: one query, a send exactly when
      the number is registered, and a pause exactly when nothing threw. */
  lemma VisitShape(number: string, message: JsValue, a: Answers, minDelay: int)
    ensures var v := VisitNumber(number, message, a, minDelay);
            && Checked(v.calls) == [Format(number)]
            && Targets(v.calls) == (if a.query == Registered(true) then [Format(number)] else [])
            && Pauses(v.calls) == (if v.result.Failed? then [] else [minDelay + a.draw])
  {
    var id := Format(number);
    var c, s, p := CheckRegistered(id), SendMessage(id, message), Pause(minDelay + a.draw);
    var v := VisitNumber(number, message, a, minDelay);
    ProjectionsOfOne(c);
    ProjectionsOfOne(s);
    ProjectionsOfOne(p);
    if a.query == Registered(true) {
      ProjectionsOfTwo(c, s);
      if a.delivery.Delivered? {
        assert v.calls == [c, s, p];
        ProjectionsOfThree(c, s, p);
      } else {
        assert v.calls == [c, s];
      }
    } else if a.query == Registered(false) {
      assert v.calls == [c, p];
      ProjectionsOfTwo(c, p);
    } else {
      assert v.calls == [c];
    }
  }

  lemma VisitSendsFollowChecks(number: string, message: JsValue, a: Answers, minDelay: int)
    ensures SendsFollowChecks(VisitNumber(number, message, a, minDelay).calls, message)
  {
    var v := VisitNumber(number, message, a, minDelay);
    forall j | 0 <= j < |v.calls| && v.calls[j].SendMessage?
      ensures 0 < j && v.calls[j - 1] == CheckRegistered(v.calls[j].to)
      ensures v.calls[j].message == message
    {
      assert v.calls[0].CheckRegistered?;
      assert j == 1;
    }
  }

  /** The formatted ids of the leading string numbers whose registration
      query answered true: the numbers a message is meant for. */
  function RegisteredTargets(numbers: seq<JsValue>, answers: seq<Answers>): seq<string>
    requires |answers| >= |numbers|
    decreases |numbers|
  {
    if numbers == [] || !numbers[0].Str? then []
    else (if answers[0].query == Registered(true) then [Format(numbers[0].s)] else [])
         + RegisteredTargets(numbers[1..], answers[1..])
  }

  function CountFailed(results: seq<Result>): nat
  {
    if results == [] then 0
    else (if results[0].Failed? then 1 else 0) + CountFailed(results[1..])
  }

  /** The loop goes through the numbers in input order, and the result for
      each number depends only on that number's own answers, so an error on
      one number never changes what happens to the others. */
  lemma {:induction false} ResultsFollowNumbers(numbers: seq<JsValue>, message: JsValue,
                                                answers: seq<Answers>, minDelay: int)
    requires |answers| >= |numbers|
    ensures var run := Process(numbers, message, answers, minDelay);
            forall k :: 0 <= k < |run.results| ==>
              numbers[k].Str?
              && run.results[k] == VisitNumber(numbers[k].s, message, answers[k], minDelay).result
    decreases |numbers|
  {
    if numbers != [] && numbers[0].Str? {
      var run := Process(numbers, message, answers, minDelay);
      var rest := Process(numbers[1..], message, answers[1..], minDelay);
      ResultsFollowNumbers(numbers[1..], message, answers[1..], minDelay);
      forall k | 0 <= k < |run.results|
        ensures numbers[k].Str?
        ensures run.results[k] == VisitNumber(numbers[k].s, message, answers[k], minDelay).result
      {
        if k > 0 {
          assert run.results[k] == rest.results[k - 1];
          assert numbers[1..][k - 1] == numbers[k] && answers[1..][k - 1] == answers[k];
        }
      }
    }
  }

  /** Every processed number is asked about exactly once, in input order, at
      its formatted address. */
  lemma {:induction false} EachNumberCheckedOnceInOrder(numbers: seq<JsValue>, message: JsValue,
                                                        answers: seq<Answers>, minDelay: int)
    requires |answers| >= |numbers|
    ensures var run := Process(numbers, message, answers, minDelay);
            && |Checked(run.calls)| == |run.results|
            && forall k :: 0 <= k < |run.results| ==>
                 numbers[k].Str? && Checked(run.calls)[k] == Format(numbers[k].s)
    decreases |numbers|
  {
    ResultsFollowNumbers(numbers, message, answers, minDelay);
    if numbers != [] && numbers[0].Str? {
      var v := VisitNumber(numbers[0].s, message, answers[0], minDelay);
      var run := Process(numbers, message, answers, minDelay);
      var rest := Process(numbers[1..], message, answers[1..], minDelay);
      EachNumberCheckedOnceInOrder(numbers[1..], message, answers[1..], minDelay);
      CheckedConcat(v.calls, rest.calls);
      VisitShape(numbers[0].s, message, answers[0], minDelay);
      forall k | 0 <= k < |run.results|
        ensures Checked(run.calls)[k] == Format(numbers[k].s)
      {
        if k > 0 {
          assert Checked(run.calls)[k] == Checked(rest.calls)[k - 1];
          assert numbers[1..][k - 1] == numbers[k];
        }
      }
    }
  }

  /** `sendMessage` is called exactly for the numbers whose registration
      query answered true, in input order, and never for the others. */
  lemma {:induction false} SendsOnlyToRegistered(numbers: seq<JsValue>, message: JsValue,
                                                 answers: seq<Answers>, minDelay: int)
    requires |answers| >= |numbers|
    ensures Targets(Process(numbers, message, answers, minDelay).calls)
         == RegisteredTargets(numbers, answers)
    decreases |numbers|
  {
    if numbers != [] && numbers[0].Str? {
      var v := VisitNumber(numbers[0].s, message, answers[0], minDelay);
      var rest := Process(numbers[1..], message, answers[1..], minDelay);
      SendsOnlyToRegistered(numbers[1..], message, answers[1..], minDelay);
      TargetsConcat(v.calls, rest.calls);
      VisitShape(numbers[0].s, message, answers[0], minDelay);
    }
  }

  /** Every call to `sendMessage` comes right after the registration query
      for the same address and carries the request's message. */
  predicate SendsFollowChecks(calls: seq<Call>, message: JsValue)
  {
    forall j :: 0 <= j < |calls| && calls[j].SendMessage? ==>
      0 < j && calls[j - 1] == CheckRegistered(calls[j].to) && calls[j].message == message
  }

  /** Traces that each keep every send right after its query still do so
      when joined. */
  lemma SendsFollowChecksConcat(a: seq<Call>, b: seq<Call>, message: JsValue)
    requires SendsFollowChecks(a, message) && SendsFollowChecks(b, message)
    ensures SendsFollowChecks(a + b, message)
  {
    forall j | 0 <= j < |a + b| && (a + b)[j].SendMessage?
      ensures 0 < j && (a + b)[j - 1] == CheckRegistered((a + b)[j].to)
      ensures (a + b)[j].message == message
    {
      if j >= |a| {
        assert (a + b)[j] == b[j - |a|];
        assert (a + b)[j - 1] == b[j - 1 - |a|];
      }
    }
  }

  lemma {:induction false} SendsFollowChecksInRun(numbers: seq<JsValue>, message: JsValue,
                                                  answers: seq<Answers>, minDelay: int)
    requires |answers| >= |numbers|
    ensures SendsFollowChecks(Process(numbers, message, answers, minDelay).calls, message)
    decreases |numbers|
  {
    if numbers != [] && numbers[0].Str? {
      var v := VisitNumber(numbers[0].s, message, answers[0], minDelay);
      var rest := Process(numbers[1..], message, answers[1..], minDelay);
      SendsFollowChecksInRun(numbers[1..], message, answers[1..], minDelay);
      VisitSendsFollowChecks(numbers[0].s, message, answers[0], minDelay);
      SendsFollowChecksConcat(v.calls, rest.calls, message);
    }
  }

  /** The random draws of a run, each within what the draw can yield. */
  predicate DrawsInRange(answers: seq<Answers>, minDelay: int, maxDelay: int)
  {
    forall k :: 0 <= k < |answers| ==> answers[k].draw <= maxDelay - minDelay
  }

  /** Every pause length lies between the two configured delays. */
  predicate PausesWithin(pauses: seq<int>, minDelay: int, maxDelay: int)
  {
    forall j :: 0 <= j < |pauses| ==> minDelay <= pauses[j] <= maxDelay
  }

  lemma PausesWithinConcat(p: seq<int>, q: seq<int>, minDelay: int, maxDelay: int)
    requires PausesWithin(p, minDelay, maxDelay) && PausesWithin(q, minDelay, maxDelay)
    ensures PausesWithin(p + q, minDelay, maxDelay)
  {
    forall j | 0 <= j < |p + q| ensures minDelay <= (p + q)[j] <= maxDelay {
      if j >= |p| {
        assert (p + q)[j] == q[j - |p|];
      }
    }
  }

  lemma DrawsInRangeTail(answers: seq<Answers>, minDelay: int, maxDelay: int)
    requires answers != [] && DrawsInRange(answers, minDelay, maxDelay)
    ensures DrawsInRange(answers[1..], minDelay, maxDelay)
  {
    forall k | 0 <= k < |answers[1..]| ensures answers[1..][k].draw <= maxDelay - minDelay {
      assert answers[1..][k] == answers[k + 1];
    }
  }

  /** One iteration pauses once unless it threw, for a delay within the
      configured bounds. */
  lemma VisitPauses(number: string, message: JsValue, a: Answers, minDelay: int, maxDelay: int)
    requires a.draw <= maxDelay - minDelay
    ensures var v := VisitNumber(number, message, a, minDelay);
            && |Pauses(v.calls)| == (if v.result.Failed? then 0 else 1)
            && PausesWithin(Pauses(v.calls), minDelay, maxDelay)
  {
    VisitShape(number, message, a, minDelay);
  }

  lemma CountFailedCons(r: Result, results: seq<Result>)
    ensures CountFailed([r] + results) == (if r.Failed? then 1 else 0) + CountFailed(results)
  {
    assert ([r] + results)[1..] == results;
  }

  /** A pause follows every iteration that did not throw, the last one
      included, and none follows one that threw; every pause lies between
      `minDelay` and `maxDelay`. */
  lemma {:induction false} PausesAfterEachSuccess(numbers: seq<JsValue>, message: JsValue,
                                                  answers: seq<Answers>, minDelay: int, maxDelay: int)
    requires |answers| >= |numbers|
    requires DrawsInRange(answers, minDelay, maxDelay)
    ensures var run := Process(numbers, message, answers, minDelay);
            && |Pauses(run.calls)| + CountFailed(run.results) == |run.results|
            && PausesWithin(Pauses(run.calls), minDelay, maxDelay)
    decreases |numbers|
  {
    if numbers != [] && numbers[0].Str? {
      var v := VisitNumber(numbers[0].s, message, answers[0], minDelay);
      var rest := Process(numbers[1..], message, answers[1..], minDelay);
      assert Process(numbers, message, answers, minDelay)
          == Run(v.calls + rest.calls, [v.result] + rest.results, rest.aborted);
      DrawsInRangeTail(answers, minDelay, maxDelay);
      PausesAfterEachSuccess(numbers[1..], message, answers[1..], minDelay, maxDelay);
      PausesConcat(v.calls, rest.calls);
      VisitPauses(numbers[0].s, message, answers[0], minDelay, maxDelay);
      PausesWithinConcat(Pauses(v.calls), Pauses(rest.calls), minDelay, maxDelay);
      CountFailedCons(v.result, rest.results);
    } else {
      assert Process(numbers, message, answers, minDelay).calls == [];
    }
  }

  /** Unlike a "pause between messages", a single unregistered number still
      costs one full pause after its query. */
  lemma SingleNumberStillPauses(number: string, message: JsValue, a: Answers, minDelay: int)
    requires a.query == Registered(false)
    ensures Process([Str(number)], message, [a], minDelay).calls
         == [CheckRegistered(Format(number)), Pause(minDelay + a.draw)]
  {
    assert [Str(number)][1..] == [] && [a][1..] == [];
    assert [CheckRegistered(Format(number)), Pause(minDelay + a.draw)] + []
        == [CheckRegistered(Format(number)), Pause(minDelay + a.draw)];
  }
}
