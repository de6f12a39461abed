/** Asking an upstream and asking again (web/upstream_client.go), and what its
    answers are kept under (web/upstream_cache.go). */
module UpstreamAsk {
  import opened Strings
  import opened Upstream

  datatype RetryPolicy = RetryPolicy(base: nat, max: nat, retries: nat)

  predicate IsEnabled(policy: RetryPolicy) { policy.retries > 0 && policy.base > 0 }

  predicate IsRetryable(fault: Fault) { fault.Broken? || fault.refusal.status >= 500 }

  /** What a fetch comes to: a response, whatever its status, or none. */
  datatype Fetched = NoResponse(fault: Fault) | Got(response: Response)

  datatype Outcome = Answered(response: Response) | Faulted(fault: Fault)

  /** failUnsuccessful, at the end of an attempt. */
  function FailUnsuccessful(target: string, response: Response): Outcome
  {
    if IsSuccessful(response) then Answered(response) else Faulted(Refused("call " + target, RefusalOf(response)))
  }

  /** recoverRefusal, after the last attempt. */
  function RecoverRefusal(outcome: Outcome): Outcome
  {
    match outcome
    case Answered(_) => outcome
    case Faulted(Refused(_, refusal)) => Answered(ResponseOf(refusal))
    case Faulted(Broken(_)) => outcome
  }

  /** Carried as a failure and handed back, a response is what it was: status, header
      and entity. */
  lemma ResponseUnchanged(target: string, response: Response)
    ensures RecoverRefusal(FailUnsuccessful(target, response)) == Answered(response)
  {
  }

  /** How an attempt ends: at a turn refused, a fetch without a response, or a
      response. */
  function Judge(target: string, turn: Option<Fault>, fetched: Fetched): Outcome
  {
    if turn.Some? then Faulted(turn.value)
    else if fetched.NoResponse? then Faulted(fetched.fault)
    else FailUnsuccessful(target, fetched.response)
  }

  predicate WorthRetrying(outcome: Outcome) { outcome.Faulted? && IsRetryable(outcome.fault) }

  /** The service said that it could not answer, or was not reached. */
  predicate Unserved(fault: Fault)
  {
    match fault case Refused(_, refusal) => refusal.status >= 500 case Broken(_) => true
  }

  /** How an attempt came out, by the status alone where there was one: nobody could
      answer it. */
  predicate Unanswered(turn: Option<Fault>, fetched: Fetched)
  {
    match turn
    case Some(denied) => Unserved(denied)
    case None => match fetched case NoResponse(fault) => Unserved(fault) case Got(response) => response.status >= 500
  }

  /** An attempt is worth another exactly when nobody could answer it. */
  lemma WorthIffUnanswered(target: string, turn: Option<Fault>, fetched: Fetched)
    ensures WorthRetrying(Judge(target, turn, fetched)) <==> Unanswered(turn, fetched)
  {}

  /** What an attempt, by its number, does to the outside. */
  datatype Event = TurnGranted(n: nat) | TurnDenied(n: nat) | Fetch(n: nat)

  /** Over the first attempts: each fetch has, immediately before it, the turn granted
      to its own attempt; no attempt fetches twice; and an attempt fetches exactly if
      it was granted its turn. */
  ghost predicate Paced(trace: seq<Event>, turn: nat -> Option<Fault>, attempts: nat)
  {
    && (forall i :: 0 <= i < |trace| ==> trace[i].n < attempts)
    && (forall i :: 0 <= i < |trace| && trace[i].Fetch? ==> i > 0 && trace[i - 1] == TurnGranted(trace[i].n))
    && (forall i, j :: 0 <= i < j < |trace| && trace[i].Fetch? && trace[j].Fetch? ==> trace[i].n < trace[j].n)
    && (forall n: nat :: n < attempts ==> (Fetch(n) in trace <==> turn(n).None?))
  }

  lemma PacedGranted(trace: seq<Event>, turn: nat -> Option<Fault>, n: nat, more: seq<Event>)
    requires Paced(trace, turn, n) && turn(n).None? && more == trace + [TurnGranted(n)] + [Fetch(n)]
    ensures Paced(more, turn, n + 1)
  {
    assert forall i :: 0 <= i < |trace| ==> more[i] == trace[i];
    assert more[|trace|] == TurnGranted(n) && more[|trace| + 1] == Fetch(n);
  }

  lemma PacedDenied(trace: seq<Event>, turn: nat -> Option<Fault>, n: nat, more: seq<Event>)
    requires Paced(trace, turn, n) && turn(n).Some? && more == trace + [TurnDenied(n)]
    ensures Paced(more, turn, n + 1)
  {
    assert forall i :: 0 <= i < |trace| ==> more[i] == trace[i];
  }

  /** One attempt: a turn, then a fetch, then what its status says. */
  method Attempt(target: string, turn: nat -> Option<Fault>, fetch: nat -> Fetched, n: nat, before: seq<Event>)
    returns (outcome: Outcome, trace: seq<Event>)
    requires Paced(before, turn, n)
    ensures outcome == Judge(target, turn(n), fetch(n)) && Paced(trace, turn, n + 1)
    ensures turn(n).Some? ==> outcome == Faulted(turn(n).value)
    ensures turn(n).None? && fetch(n).NoResponse? ==> outcome == Faulted(fetch(n).fault)
    ensures turn(n).None? && fetch(n).Got? ==>
      var response := fetch(n).response;
      if 200 <= response.status < 300 then outcome == Answered(response)
      else outcome.Faulted? && RecoverRefusal(outcome) == Answered(response)
  {
    var denied := turn(n);
    if denied.Some? {
      trace := before + [TurnDenied(n)];
      PacedDenied(before, turn, n, trace);
      return Faulted(denied.value), trace;
    }
    trace := before + [TurnGranted(n)];
    var fetched := fetch(n);
    trace := trace + [Fetch(n)];
    PacedGranted(before, turn, n, trace);
    outcome := if fetched.Got? then FailUnsuccessful(target, fetched.response) else Faulted(fetched.fault);
  }

  /** A fault is answered with itself, or with the very response it carries. */
  predicate HandsBack(fault: Fault, r: Outcome)
  {
    match fault
    case Refused(_, refusal) => r == Answered(Response(refusal.status, refusal.header, refusal.entity))
    case Broken(_) => r == Faulted(fault)
  }

  /** askUpstream: attempts until one answers, one fails for good, or the policy
      is spent. Turn and fetch are whatever the limiter and the service will do,
      attempt by attempt. */
  method AskUpstream(policy: RetryPolicy, target: string, turn: nat -> Option<Fault>, fetch: nat -> Fetched)
    returns (r: Outcome, attempts: nat, trace: seq<Event>)
    ensures 1 <= attempts <= policy.retries + 1 && (policy.base == 0 ==> attempts == 1)
    ensures forall n: nat :: n < attempts - 1 ==> Unanswered(turn(n), fetch(n))
    ensures policy.base > 0 && attempts < policy.retries + 1 ==> !Unanswered(turn(attempts - 1), fetch(attempts - 1))
    ensures Paced(trace, turn, attempts)
    ensures var last := attempts - 1;
      match turn(last)
      case Some(denied) => HandsBack(denied, r)
      case None =>
        match fetch(last) case NoResponse(fault) => HandsBack(fault, r) case Got(response) => r == Answered(response)
  {
    WorthIffUnanswered(target, turn(0), fetch(0));
    var outcome;
    outcome, trace := Attempt(target, turn, fetch, 0, []);
    attempts := 1;
    var recurred := 0;
    while WorthRetrying(outcome) && IsEnabled(policy) && recurred < policy.retries
      invariant attempts == recurred + 1 && recurred <= (if IsEnabled(policy) then policy.retries else 0)
      invariant outcome == Judge(target, turn(attempts - 1), fetch(attempts - 1))
      invariant WorthRetrying(outcome) <==> Unanswered(turn(attempts - 1), fetch(attempts - 1))
      invariant forall n: nat :: n < attempts - 1 ==> Unanswered(turn(n), fetch(n))
      invariant Paced(trace, turn, attempts)
      decreases policy.retries - recurred
    {
      outcome, trace := Attempt(target, turn, fetch, attempts, trace);
      WorthIffUnanswered(target, turn(attempts), fetch(attempts));
      attempts, recurred := attempts + 1, recurred + 1;
    }
    if turn(attempts - 1).None? && fetch(attempts - 1).Got? {
      ResponseUnchanged(target, fetch(attempts - 1).response);
    }
    r := RecoverRefusal(outcome);
  }

  // ---- Cache keys ----

  /** cacheKey: the service, what the request is about, and the request. */
  function CacheKey(name: string, about: string, question: string): string { name + ":" + about + ":" + question }

  function Question(verb: string, target: string): string { verb + " " + target }

  /** The path, with the encoded query when the request has one. */
  function Target(path: string, query: Option<string>): string
  {
    match query case None => path case Some(encoded) => path + "?" + encoded
  }

  /** The one target goes on from the other's path with a question mark, and all that
      follows is the other's query. */
  predicate Continues(path: string, query: Option<string>, path': string, query': Option<string>)
  {
    && query.Some? && path + "?" <= path'
    && query.value == path'[|path| + 1..] + (if query'.Some? then "?" + query'.value else "")
  }

  /** Two paths with their queries make one target exactly when they are the same, or
      one's path has in it the question mark before the other's query. */
  lemma TargetsShareIff(path: string, query: Option<string>, path': string, query': Option<string>)
    ensures Target(path, query) == Target(path', query') <==>
      || (path == path' && query == query')
      || Continues(path, query, path', query')
      || Continues(path', query', path, query)
    ensures '?' !in path && '?' !in path' && Target(path, query) == Target(path', query') ==>
      path == path' && query == query'
  {
    if Continues(path, query, path', query') { ContinuedShares(path, query, path', query'); }
    if Continues(path', query', path, query) { ContinuedShares(path', query', path, query); }
    if Target(path, query) == Target(path', query') {
      if |path| <= |path'| {
        SharedContinues(path, query, path', query');
      } else {
        SharedContinues(path', query', path, query);
      }
    }
  }

  lemma ContinuedShares(path: string, query: Option<string>, path': string, query': Option<string>)
    requires Continues(path, query, path', query')
    ensures Target(path, query) == Target(path', query') && '?' in path'
  {
    assert path' == path + "?" + path'[|path| + 1..];
    assert path'[|path|] == '?';
  }

  lemma SharedContinues(path: string, query: Option<string>, path': string, query': Option<string>)
    requires Target(path, query) == Target(path', query') && |path| <= |path'|
    ensures (path == path' && query == query') || Continues(path, query, path', query')
  {
    var t := Target(path, query);
    assert path == t[..|path|] && path' == t[..|path'|];
    if |path| < |path'| {
      assert t[|path|] == '?' && path' == path + "?" + path'[|path| + 1..];
      assert query.value == t[|path| + 1..];
      assert t == path' + (if query'.Some? then "?" + query'.value else "");
    } else {
      assert query.Some? ==> t[|path|..] == "?" + query.value && query.value == t[|path| + 1..];
      assert query'.Some? ==> query'.value == t[|path| + 1..];
    }
  }

  /** One key stands for one service, subject, method and path with query. */
  lemma KeyStandsForOne(name: string, about: string, verb: string, path: string, query: Option<string>,
                        name': string, about': string, verb': string, path': string, query': Option<string>)
    requires ':' !in name && ':' !in name' && ':' !in verb && ':' !in verb'
    requires ' ' !in Target(path, query) && ' ' !in Target(path', query')
    requires CacheKey(name, about, Question(verb, Target(path, query))) ==
      CacheKey(name', about', Question(verb', Target(path', query')))
    ensures name == name' && about == about' && verb == verb'
    ensures (path == path' && query == query')
      || Continues(path, query, path', query') || Continues(path', query', path, query)
    ensures '?' !in path && '?' !in path' ==> path == path' && query == query'
  {
    var target, target' := Target(path, query), Target(path', query');
    var rest, rest' := about + ":" + (verb + " " + target), about' + ":" + (verb' + " " + target');
    assert CacheKey(name, about, Question(verb, target)) == name + [':'] + rest;
    assert CacheKey(name', about', Question(verb', target')) == name' + [':'] + rest';
    CutFirst(':', name, rest, name', rest');
    assert rest == (about + ":" + verb) + [' '] + target && rest' == (about' + ":" + verb') + [' '] + target';
    CutLast(' ', about + ":" + verb, target, about' + ":" + verb', target');
    CutLast(':', about, verb, about', verb');
    TargetsShareIff(path, query, path', query');
  }

  /** The one request's target ends in a colon and the other's question, and what the
      other is about is all that comes before it. */
  predicate Swallows(about: string, verb: string, target: string, about': string, verb': string, target': string)
  {
    var tail := ":" + Question(verb', target');
    && |tail| <= |target| && target[|target| - |tail|..] == tail
    && about' == about + ":" + Question(verb, target[..|target| - |tail|])
  }

  lemma SwallowedShares(
    about: string, verb: string, target: string, about': string, verb': string, target': string)
    requires Swallows(about, verb, target, about', verb', target')
    ensures about + ":" + Question(verb, target) == about' + ":" + Question(verb', target')
    ensures ' ' in target
  {
    assert Question(verb', target')[|verb'|] == ' ';
    var tail := ":" + Question(verb', target');
    assert target == target[..|target| - |tail|] + tail;
  }

  /** A colon after the first comes after the method and its space. */
  lemma ColonBeyond(about: string, verb: string, target: string, i: nat)
    requires ':' !in verb && |about| < i
    requires i < |about + ":" + verb + " " + target| && (about + ":" + verb + " " + target)[i] == ':'
    ensures i >= |about| + |verb| + 2
  {
    var key := about + ":" + verb + " " + target;
    assert key[|about| + |verb| + 1] == ' ';
    assert forall k :: |about| < k <= |about| + |verb| ==> key[k] == verb[k - |about| - 1];
  }

  lemma SharedSwallows(
    about: string, verb: string, target: string, about': string, verb': string, target': string, key: string)
    requires ':' !in verb && |about| < |about'|
    requires key == about + ":" + Question(verb, target) && key == about' + ":" + Question(verb', target')
    ensures Swallows(about, verb, target, about', verb', target')
  {
    var front, tail := about + ":" + verb + " ", ":" + Question(verb', target');
    var i, n := |about'|, |front|;
    assert key == front + target && key == about' + tail && key[i] == ':';
    ColonBeyond(about, verb, target, i);
    assert target == key[n..] && front == key[..n] && tail == key[i..] && about' == key[..i];
    assert key[i..] == key[n..][i - n..] && key[..i] == key[..n] + key[n..][..i - n];
  }

  /** Within one service, whose methods have neither colon nor space, two requests have
      one key exactly when they are the same or one swallows the other; a target
      without a space swallows none. */
  lemma RequestsShareIff(name: string, about: string, verb: string, target: string,
                         about': string, verb': string, target': string)
    requires ':' !in verb && ' ' !in verb && ':' !in verb' && ' ' !in verb'
    ensures CacheKey(name, about, Question(verb, target)) == CacheKey(name, about', Question(verb', target')) <==>
      || (about == about' && verb == verb' && target == target')
      || Swallows(about, verb, target, about', verb', target')
      || Swallows(about', verb', target', about, verb, target)
  {
    var x, y := about + ":" + Question(verb, target), about' + ":" + Question(verb', target');
    var keyX, keyY := CacheKey(name, about, Question(verb, target)), CacheKey(name, about', Question(verb', target'));
    assert keyX == name + ":" + x && keyY == name + ":" + y;
    assert keyX[|name| + 1..] == x && keyY[|name| + 1..] == y;
    if Swallows(about, verb, target, about', verb', target') {
      SwallowedShares(about, verb, target, about', verb', target');
    } else if Swallows(about', verb', target', about, verb, target) {
      SwallowedShares(about', verb', target', about, verb, target);
    } else if x == y {
      SharedIsSame(about, verb, target, about', verb', target', x);
    }
  }

  lemma SharedIsSame(
    about: string, verb: string, target: string, about': string, verb': string, target': string, key: string)
    requires ':' !in verb && ' ' !in verb && ':' !in verb' && ' ' !in verb'
    requires key == about + ":" + Question(verb, target) && key == about' + ":" + Question(verb', target')
    requires !Swallows(about, verb, target, about', verb', target')
    requires !Swallows(about', verb', target', about, verb, target)
    ensures about == about' && verb == verb' && target == target'
  {
    if |about| < |about'| {
      SharedSwallows(about, verb, target, about', verb', target', key);
    } else if |about'| < |about| {
      SharedSwallows(about', verb', target', about, verb, target, key);
    } else {
      assert about == key[..|about|] && about' == key[..|about'|];
      assert Question(verb, target) == key[|about| + 1..] && Question(verb', target') == key[|about'| + 1..];
      CutFirst(' ', verb, target, verb', target');
    }
  }

  /** Such requests there are, when a path has a space. */
  lemma PathWithSpaceCollides(name: string, about: string)
    ensures CacheKey(name, about, Question("GET", "/p:GET /q"))
         == CacheKey(name, about + ":GET /p", Question("GET", "/q"))
  {
    assert "GET" + " " + "/p:GET /q" == "GET /p" + ":" + ("GET" + " " + "/q");
  }

  /** Some request of the one service and some request of the other have one key. */
  ghost predicate ShareAKey(name: string, other: string)
  {
    exists about, verb, target, about', verb', target' ::
      CacheKey(name, about, Question(verb, target)) == CacheKey(other, about', Question(verb', target'))
  }

  /** When a service's name goes on from another's after a colon, every request of
      it has the key of a request of the other: the same method and path, about
      the rest of the name as well. */
  lemma LongerNameCollides(name: string, other: string, about: string, verb: string, target: string)
    requires name + ":" <= other
    ensures CacheKey(other, about, Question(verb, target))
         == CacheKey(name, other[|name| + 1..] + ":" + about, Question(verb, target))
  {
    var rest := other[|name| + 1..];
    assert other == name + ":" + rest;
  }

  /** Two services share a key exactly when one's name, and then a colon, begins the
      other's. */
  lemma NamesShareIff(name: string, other: string)
    requires name != other
    ensures ShareAKey(name, other) <==> name + ":" <= other || other + ":" <= name
  {
    if ShareAKey(name, other) {
      var about, verb, target, about', verb', target' :|
        CacheKey(name, about, Question(verb, target)) == CacheKey(other, about', Question(verb', target'));
      SharedKeyNests(name, about + ":" + Question(verb, target), other, about' + ":" + Question(verb', target'),
                     CacheKey(name, about, Question(verb, target)));
    }
    if name + ":" <= other {
      LongerNameCollides(name, other, "", "GET", "/");
    } else if other + ":" <= name {
      LongerNameCollides(other, name, "", "GET", "/");
    }
  }

  lemma SharedKeyNests(a: string, x: string, b: string, y: string, key: string)
    requires a != b && key == a + ":" + x && key == b + ":" + y
    ensures a + ":" <= b || b + ":" <= a
  {
    assert key[..|a| + 1] == a + ":" && key[..|b| + 1] == b + ":";
    assert key[..|a|] == a && key[..|b|] == b;
  }
}
