/**
 * `handleCreateBatchLinks` of src/handlers/createBatchLinks.ts: POST
 * /api/links with an array, each item created independently, with
 * per-item partial success.
 */
module CreateBatch {
  import opened Wrappers
  import opened Json
  import opened Text
  import ShortCode
  import opened Links
  import opened Responses

  /** One element of the request array; `None` is a property that is missing or `null`. */
  datatype Item = Item(short_code: Option<string>, url: Option<string>, description: Option<string>)

  /** The parsed body: something other than an array, or the array of items. */
  datatype Items = NotArray | Array(items: seq<Item>)

  /**
   * What processing one item draws from outside the program: the four
   * `Math.random()` results used if a code must be generated, whether the
   * store throws on the INSERT, and the clock when the INSERT runs.
   */
  datatype ItemEnv = ItemEnv(draws: seq<real>, fault: bool, now: Timestamp)

  const ALPHABET := "abcdefghijklmnopqrstuvwxyz0123456789"
  const CODE_LENGTH := 4

  const URL_REQUIRED := "URL is required"
  const BAD_URL := "Invalid URL format"
  const BAD_CODE_FORMAT := "Invalid short_code format. Only alphanumeric characters, hyphens, and underscores are allowed."
  const DB_ERROR := "Database error during link creation"

  /** A value `Math.random()` can return. */
  predicate IsRandomDraw(d: real) {
    0.0 <= d < 1.0
  }

  predicate RandomDraws(draws: seq<real>) {
    forall i :: 0 <= i < |draws| ==> IsRandomDraw(draws[i])
  }

  predicate EnvsFor(envs: seq<ItemEnv>, n: nat) {
    |envs| == n && forall i :: 0 <= i < |envs| ==> |envs[i].draws| == CODE_LENGTH && RandomDraws(envs[i].draws)
  }

  /** Every character of the alphabet belongs to `[a-zA-Z0-9_-]`. */
  lemma AlphabetInPattern()
    ensures forall j :: 0 <= j < |ALPHABET| ==> ShortCode.PatternChar(ALPHABET[j])
  {
  }

  /** `chars.charAt(Math.floor(d * chars.length))`. */
  function CharAt(d: real): (c: char)
    requires IsRandomDraw(d)
    ensures c in ALPHABET && ShortCode.PatternChar(c)
  {
    var i := (d * 36.0).Floor;
    assert 0 <= i < 36 by {
      assert i as real <= d * 36.0 < 36.0;
    }
    AlphabetInPattern();
    ALPHABET[i]
  }

  /** `isValidShortcode`: no slash and the pattern; the slash test is subsumed, and no trimming is done. */
  function IsValidShortcode(s: string): (r: bool)
    ensures r <==> ShortCode.MatchesPattern(s)
    ensures r ==> Trim(s) == s && ShortCode.IsValid(Some(s))
  {
    if '/' in s then false
    else
      var ok := ShortCode.MatchesPattern(s);
      assert ok ==> Trim(s) == s by {
        if ok {
          ShortCode.PatternExcludes(s);
          TrimOfTrimmed(s);
        }
      }
      ok
  }

  /**
   * `generateRandomShortcode(length)`: `length` characters of the
   * lower-case-and-digit alphabet, one per random draw; every such code of
   * positive length passes `isValidShortcode`.
   */
  function GenerateRandomShortcode(length: nat, draws: seq<real>): (r: string)
    requires |draws| == length && RandomDraws(draws)
    ensures |r| == length
    ensures forall i :: 0 <= i < |r| ==> r[i] in ALPHABET
    ensures length > 0 ==> IsValidShortcode(r)
  {
    seq(length, i requires 0 <= i < length => CharAt(draws[i]))
  }

  /** What the guards decide for one item: an error entry, or an INSERT to attempt. */
  datatype Plan = Reject(entry: ErrorEntry) | Attempt(code: string, url: string, description: Option<string>)

  /**
   * The guards of one loop iteration. An item is attempted exactly when its
   * URL is given and parses and its code is either omitted (then generated)
   * or valid (then used as given, neither trimmed nor lower-cased).
   */
  function PlanItem(item: Item, draws: seq<real>, urlOk: string -> bool): (p: Plan)
    requires |draws| == CODE_LENGTH && RandomDraws(draws)
    ensures p.Attempt? <==>
      Truthy(item.url) && urlOk(item.url.value) && (!Truthy(item.short_code) || IsValidShortcode(item.short_code.value))
    ensures p.Attempt? ==>
      p.url == item.url.value && p.description == item.description && ShortCode.MatchesPattern(p.code)
    ensures p.Attempt? && Truthy(item.short_code) ==> p.code == item.short_code.value
    ensures p.Attempt? && !Truthy(item.short_code) ==> p.code == GenerateRandomShortcode(CODE_LENGTH, draws)
    ensures !Truthy(item.url) ==> p == Reject(ErrorEntry("", item.short_code, URL_REQUIRED))
    ensures Truthy(item.url) && !urlOk(item.url.value) ==> p == Reject(ErrorEntry(item.url.value, item.short_code, BAD_URL))
    ensures Truthy(item.url) && urlOk(item.url.value) && Truthy(item.short_code) && !IsValidShortcode(item.short_code.value) ==>
      p == Reject(ErrorEntry(item.url.value, item.short_code, BAD_CODE_FORMAT))
  {
    if !Truthy(item.url) then Reject(ErrorEntry("", item.short_code, URL_REQUIRED))
    else if !urlOk(item.url.value) then Reject(ErrorEntry(item.url.value, item.short_code, BAD_URL))
    else if !Truthy(item.short_code) then
      Attempt(GenerateRandomShortcode(CODE_LENGTH, draws), item.url.value, item.description)
    else if !IsValidShortcode(item.short_code.value) then
      Reject(ErrorEntry(item.url.value, item.short_code, BAD_CODE_FORMAT))
    else Attempt(item.short_code.value, item.url.value, item.description)
  }

  /** An attempted plan would store a row `Sound` accepts. */
  predicate PlanSound(p: Plan, urlOk: string -> bool) {
    p.Attempt? ==> ShortCode.MatchesPattern(p.code) && p.url != [] && urlOk(p.url)
  }

  /** The guards only let through codes of the pattern and URLs that parse. */
  lemma PlanItemSound(item: Item, draws: seq<real>, urlOk: string -> bool)
    requires |draws| == CODE_LENGTH && RandomDraws(draws)
    ensures PlanSound(PlanItem(item, draws, urlOk), urlOk)
  {
  }

  /** The plan of every item of the array, in order. */
  function Plans(items: seq<Item>, envs: seq<ItemEnv>, urlOk: string -> bool): (ps: seq<Plan>)
    requires EnvsFor(envs, |items|)
    ensures |ps| == |items|
  {
    seq(|items|, i requires 0 <= i < |items| => PlanItem(items[i], envs[i].draws, urlOk))
  }

  /** Every plan of the array is sound. */
  lemma PlansSound(items: seq<Item>, envs: seq<ItemEnv>, urlOk: string -> bool)
    requires EnvsFor(envs, |items|)
    ensures forall i :: 0 <= i < |items| ==> PlanSound(Plans(items, envs, urlOk)[i], urlOk)
  {
    forall i | 0 <= i < |items| ensures PlanSound(Plans(items, envs, urlOk)[i], urlOk) {
      PlanItemSound(items[i], envs[i].draws, urlOk);
    }
  }

  /** Where one item ends up: exactly one of the two lists. */
  datatype Outcome = Succeeded(success: SuccessEntry) | Failed(failure: ErrorEntry)

  /** The INSERT of one iteration, once the guards have decided: the table and the item's outcome after it. */
  function Step(t: map<string, Link>, plan: Plan, env: ItemEnv, origin: string): (map<string, Link>, Outcome) {
    match plan
    case Reject(e) => (t, Failed(e))
    case Attempt(code, url, description) =>
      if env.fault then (t, Failed(ErrorEntry(url, Some(code), DB_ERROR)))
      else if code in t then (t, Failed(ErrorEntry(url, Some(code), "Short_code '" + code + "' already exists")))
      else
        (t[code := NewRow(code, url, description, 1, env.now)],
         Succeeded(SuccessEntry(code, origin + "/" + code, url, description)))
  }

  /**
   * An item succeeds exactly when it was attempted, the store did not fail
   * and its code was free; then one enabled row is added. A taken code
   * records "already exists", any other store error the generic message,
   * and a rejected item its own entry; each failure leaves the table as it
   * was. Rows already stored are never changed, and a sound plan keeps the
   * table sound.
   */
  lemma StepSpec(t: map<string, Link>, plan: Plan, env: ItemEnv, origin: string, urlOk: string -> bool)
    ensures var (t', o) := Step(t, plan, env, origin);
      && (o.Succeeded? <==> plan.Attempt? && !env.fault && plan.code !in t)
      && (o.Failed? ==> t' == t)
      && (plan.Reject? ==> o == Failed(plan.entry))
      && (plan.Attempt? && env.fault ==> o == Failed(ErrorEntry(plan.url, Some(plan.code), DB_ERROR)))
      && (plan.Attempt? && !env.fault && plan.code in t ==>
            o == Failed(ErrorEntry(plan.url, Some(plan.code), "Short_code '" + plan.code + "' already exists")))
      && (o.Succeeded? ==>
            && o.success == SuccessEntry(plan.code, origin + "/" + plan.code, plan.url, plan.description)
            && t' == t[plan.code := NewRow(plan.code, plan.url, plan.description, 1, env.now)])
    ensures var t' := Step(t, plan, env, origin).0;
      forall k :: k in t ==> k in t' && t'[k] == t[k]
    ensures Sound(t, urlOk) && PlanSound(plan, urlOk) ==> Sound(Step(t, plan, env, origin).0, urlOk)
  {
  }

  /** The table and the outcomes after the first `n` items, processed in order. */
  function Process(t: map<string, Link>, plans: seq<Plan>, envs: seq<ItemEnv>, origin: string, n: nat)
    : (r: (map<string, Link>, seq<Outcome>))
    requires n <= |plans| == |envs|
    ensures |r.1| == n
  {
    if n == 0 then (t, [])
    else
      var prev := Process(t, plans, envs, origin, n - 1);
      var step := Step(prev.0, plans[n - 1], envs[n - 1], origin);
      (step.0, prev.1 + [step.1])
  }

  /** Item `n` runs on the table the first `n` items left behind. */
  lemma ProcessNext(t: map<string, Link>, plans: seq<Plan>, envs: seq<ItemEnv>, origin: string, n: nat)
    requires n < |plans| == |envs|
    ensures var prev := Process(t, plans, envs, origin, n);
      var step := Step(prev.0, plans[n], envs[n], origin);
      && Process(t, plans, envs, origin, n + 1).0 == step.0
      && Process(t, plans, envs, origin, n + 1).1 == prev.1 + [step.1]
  {
  }

  /** The `success` list: the successful outcomes, in input order. */
  function Successes(outs: seq<Outcome>): (r: seq<SuccessEntry>)
    ensures forall e :: e in r <==> Succeeded(e) in outs
  {
    if outs == [] then []
    else
      var init := outs[..|outs| - 1];
      var last := outs[|outs| - 1];
      assert outs == init + [last];
      Successes(init) + (if last.Succeeded? then [last.success] else [])
  }

  /** The `errors` list: the failed outcomes, in input order. */
  function Errors(outs: seq<Outcome>): (r: seq<ErrorEntry>)
    ensures forall e :: e in r <==> Failed(e) in outs
  {
    if outs == [] then []
    else
      var init := outs[..|outs| - 1];
      var last := outs[|outs| - 1];
      assert outs == init + [last];
      Errors(init) + (if last.Failed? then [last.failure] else [])
  }

  /**
   * Both lists keep input order: the entries of a batch split in two are the
   * entries of the first part followed by those of the second.
   */
  lemma {:induction false} ListsAppend(a: seq<Outcome>, b: seq<Outcome>)
    ensures Successes(a + b) == Successes(a) + Successes(b)
    ensures Errors(a + b) == Errors(a) + Errors(b)
    decreases |b|
  {
    if b == [] {
      assert a + b == a;
    } else {
      var b' := b[..|b| - 1];
      assert a + b == (a + b') + [b[|b| - 1]];
      assert (a + b)[..|a + b| - 1] == a + b';
      ListsAppend(a, b');
    }
  }

  /** Every outcome lands in exactly one list, so the two lengths add up to the number of outcomes. */
  lemma {:induction false} ListsPartition(outs: seq<Outcome>)
    ensures |Successes(outs)| + |Errors(outs)| == |outs|
    ensures |Successes(outs)| > 0 <==> exists i :: 0 <= i < |outs| && outs[i].Succeeded?
  {
    if outs != [] {
      var init := outs[..|outs| - 1];
      ListsPartition(init);
      if exists i :: 0 <= i < |init| && init[i].Succeeded? {
        var i :| 0 <= i < |init| && init[i].Succeeded?;
        assert outs[i].Succeeded?;
      }
      if exists i :: 0 <= i < |outs| && outs[i].Succeeded? {
        var i :| 0 <= i < |outs| && outs[i].Succeeded?;
        if i < |init| { assert init[i].Succeeded?; }
      }
    }
  }

  /**
   * Processing `n` items keeps every row that was stored before and, when
   * every plan is sound, keeps the table sound.
   */
  lemma {:induction false} ProcessShape(t: map<string, Link>, plans: seq<Plan>, envs: seq<ItemEnv>, origin: string,
                                        urlOk: string -> bool, n: nat)
    requires n <= |plans| == |envs|
    ensures var t' := Process(t, plans, envs, origin, n).0;
      forall k :: k in t ==> k in t' && t'[k] == t[k]
    ensures Sound(t, urlOk) && (forall i :: 0 <= i < |plans| ==> PlanSound(plans[i], urlOk)) ==>
      Sound(Process(t, plans, envs, origin, n).0, urlOk)
  {
    if n > 0 {
      ProcessShape(t, plans, envs, origin, urlOk, n - 1);
      ProcessNext(t, plans, envs, origin, n - 1);
      StepSpec(Process(t, plans, envs, origin, n - 1).0, plans[n - 1], envs[n - 1], origin, urlOk);
    }
  }

  /** Later items never rewrite the outcomes of earlier ones. */
  lemma {:induction false} ProcessPrefix(t: map<string, Link>, plans: seq<Plan>, envs: seq<ItemEnv>, origin: string,
                                         m: nat, n: nat)
    requires m <= n <= |plans| == |envs|
    ensures Process(t, plans, envs, origin, n).1[..m] == Process(t, plans, envs, origin, m).1
  {
    if m < n {
      ProcessPrefix(t, plans, envs, origin, m, n - 1);
      ProcessNext(t, plans, envs, origin, n - 1);
      var prev := Process(t, plans, envs, origin, n - 1).1;
      assert Process(t, plans, envs, origin, n).1[..m] == prev[..m];
    }
  }

  /**
   * The outcome of item `i` is the outcome of its own iteration, taken on
   * the table the first `i` items left behind.
   */
  lemma ProcessAt(t: map<string, Link>, plans: seq<Plan>, envs: seq<ItemEnv>, origin: string, n: nat, i: nat)
    requires i < n <= |plans| == |envs|
    ensures Process(t, plans, envs, origin, n).1[i]
         == Step(Process(t, plans, envs, origin, i).0, plans[i], envs[i], origin).1
  {
    ProcessPrefix(t, plans, envs, origin, i + 1, n);
    ProcessNext(t, plans, envs, origin, i);
    var all := Process(t, plans, envs, origin, n).1;
    assert all[i] == all[..i + 1][i];
  }

  /** Rows present after `m` items are still present, unchanged, after `n >= m` items. */
  lemma {:induction false} ProcessTail(t: map<string, Link>, plans: seq<Plan>, envs: seq<ItemEnv>, origin: string,
                                       m: nat, n: nat)
    requires m <= n <= |plans| == |envs|
    ensures var tm := Process(t, plans, envs, origin, m).0;
      var tn := Process(t, plans, envs, origin, n).0;
      forall k :: k in tm ==> k in tn && tn[k] == tm[k]
  {
    if m < n {
      ProcessTail(t, plans, envs, origin, m, n - 1);
      ProcessNext(t, plans, envs, origin, n - 1);
      StepSpec(Process(t, plans, envs, origin, n - 1).0, plans[n - 1], envs[n - 1], origin, t => true);
    }
  }

  /** An item with a missing or unparsable URL, or an invalid code, fails with its guard's entry and no INSERT. */
  lemma RejectedItemFails(t: map<string, Link>, items: seq<Item>, envs: seq<ItemEnv>, origin: string,
                          urlOk: string -> bool, i: nat)
    requires i < |items| && EnvsFor(envs, |items|)
    requires PlanItem(items[i], envs[i].draws, urlOk).Reject?
    ensures var plans := Plans(items, envs, urlOk);
      && Process(t, plans, envs, origin, |items|).1[i] == Failed(PlanItem(items[i], envs[i].draws, urlOk).entry)
      && Process(t, plans, envs, origin, i + 1).0 == Process(t, plans, envs, origin, i).0
  {
    var plans := Plans(items, envs, urlOk);
    assert plans[i] == PlanItem(items[i], envs[i].draws, urlOk);
    ProcessAt(t, plans, envs, origin, |items|, i);
    ProcessNext(t, plans, envs, origin, i);
    StepSpec(Process(t, plans, envs, origin, i).0, plans[i], envs[i], origin, urlOk);
  }

  /**
   * A successful iteration's row is in the final table under the reported
   * code: enabled, with the plan's URL and description.
   */
  lemma SucceededPlanStored(t: map<string, Link>, plans: seq<Plan>, envs: seq<ItemEnv>, origin: string, i: nat)
    requires i < |plans| == |envs|
    requires Process(t, plans, envs, origin, |plans|).1[i].Succeeded?
    ensures var r := Process(t, plans, envs, origin, |plans|);
      var e := r.1[i].success;
      && plans[i].Attempt?
      && e.short_code == plans[i].code && e.original_url == plans[i].url
      && e.short_code in r.0
      && r.0[e.short_code] == NewRow(e.short_code, plans[i].url, plans[i].description, 1, envs[i].now)
  {
    var ti := Process(t, plans, envs, origin, i).0;
    ProcessAt(t, plans, envs, origin, |plans|, i);
    StepSpec(ti, plans[i], envs[i], origin, u => true);
    ProcessNext(t, plans, envs, origin, i);
    ProcessTail(t, plans, envs, origin, i + 1, |plans|);
    assert plans[i].code in Process(t, plans, envs, origin, i + 1).0;
  }

  /**
   * A successful item's row is in the final table under the reported code:
   * enabled, with the item's URL and description.
   */
  lemma SucceededItemStored(t: map<string, Link>, items: seq<Item>, envs: seq<ItemEnv>, origin: string,
                            urlOk: string -> bool, i: nat)
    requires i < |items| && EnvsFor(envs, |items|)
    requires Process(t, Plans(items, envs, urlOk), envs, origin, |items|).1[i].Succeeded?
    ensures var r := Process(t, Plans(items, envs, urlOk), envs, origin, |items|);
      var e := r.1[i].success;
      && Truthy(items[i].url)
      && e.original_url == items[i].url.value
      && e.short_code in r.0
      && r.0[e.short_code] == NewRow(e.short_code, items[i].url.value, items[i].description, 1, envs[i].now)
  {
    var plans := Plans(items, envs, urlOk);
    SucceededPlanStored(t, plans, envs, origin, i);
    assert plans[i] == PlanItem(items[i], envs[i].draws, urlOk);
  }

  /** "Processed N links: S created, E failed". */
  function Summary(total: nat, created: nat, failed: nat): string {
    "Processed " + NatToString(total) + " links: " + NatToString(created) + " created, "
    + NatToString(failed) + " failed"
  }

  /**
   * The body of the loop for one item: the guards, then the INSERT. The
   * table and the outcome are those of `Step` on the item's plan.
   */
  method CreateItem(store: LinkTable, item: Item, env: ItemEnv, origin: string, urlOk: string -> bool)
    returns (o: Outcome)
    requires store.Valid()
    requires |env.draws| == CODE_LENGTH && RandomDraws(env.draws)
    modifies store
    ensures store.Valid()
    ensures (store.links, o) == Step(old(store.links), PlanItem(item, env.draws, urlOk), env, origin)
  {
    match PlanItem(item, env.draws, urlOk) {
      case Reject(e) =>
        o := Failed(e);
      case Attempt(code, url, description) =>
        var inserted := store.Insert(code, url, description, 1, env.now, env.fault);
        match inserted {
          case Inserted =>
            o := Succeeded(SuccessEntry(code, origin + "/" + code, url, description));
          case Duplicate =>
            o := Failed(ErrorEntry(url, Some(code), "Short_code '" + code + "' already exists"));
          case InsertFailed =>
            o := Failed(ErrorEntry(url, Some(code), DB_ERROR));
        }
    }
  }

  /**
   * Rejects a body that is not a non-empty array; otherwise processes every
   * item in order. The table afterwards and the two lists are those of
   * `Process` over the items' plans; the status is 201 exactly when some
   * item succeeded.
   */
  method HandleCreateBatchLinks(store: LinkTable, body: Body<Items>, envs: seq<ItemEnv>, origin: string,
                                urlOk: string -> bool) returns (resp: Response)
    requires store.Valid()
    requires body.Json? && body.value.Array? ==> EnvsFor(envs, |body.value.items|)
    modifies store
    ensures store.Valid()
    ensures body.InvalidJson? ==> resp == ErrorResponse("Invalid JSON body", BAD_REQUEST)
    ensures body.Json? && body.value.NotArray? ==> resp == ErrorResponse("Request body must be an array", BAD_REQUEST)
    ensures body.Json? && body.value == Array([]) ==> resp == ErrorResponse("Empty array provided", BAD_REQUEST)
    ensures !(body.Json? && body.value.Array? && body.value.items != []) ==> store.links == old(store.links)
    ensures body.Json? && body.value.Array? && body.value.items != [] ==>
      var items := body.value.items;
      var (t', outs) := Process(old(store.links), Plans(items, envs, urlOk), envs, origin, |items|);
      && store.links == t'
      && |outs| == |items|
      && resp.payload == BatchReport(Summary(|items|, |Successes(outs)|, |Errors(outs)|), Successes(outs), Errors(outs))
      && |Successes(outs)| + |Errors(outs)| == |items|
      && resp.status == (if |Successes(outs)| > 0 then CREATED else BAD_REQUEST)
    ensures Sound(old(store.links), urlOk) ==> Sound(store.links, urlOk)
  {
    if body.InvalidJson? {
      return ErrorResponse("Invalid JSON body", BAD_REQUEST);
    }
    if body.value.NotArray? {
      return ErrorResponse("Request body must be an array", BAD_REQUEST);
    }
    var items := body.value.items;
    if |items| == 0 {
      return ErrorResponse("Empty array provided", BAD_REQUEST);
    }
    ghost var plans := Plans(items, envs, urlOk);
    var success: seq<SuccessEntry> := [];
    var errors: seq<ErrorEntry> := [];
    ghost var outs: seq<Outcome> := [];
    var i := 0;
    while i < |items|
      invariant 0 <= i <= |items|
      invariant store.Valid()
      invariant store.links == Process(old(store.links), plans, envs, origin, i).0
      invariant outs == Process(old(store.links), plans, envs, origin, i).1
      invariant success == Successes(outs) && errors == Errors(outs)
    {
      ProcessNext(old(store.links), plans, envs, origin, i);
      assert plans[i] == PlanItem(items[i], envs[i].draws, urlOk);
      var o := CreateItem(store, items[i], envs[i], origin, urlOk);
      if o.Succeeded? {
        success := success + [o.success];
      } else {
        errors := errors + [o.failure];
      }
      assert (outs + [o])[..|outs|] == outs;
      outs := outs + [o];
      i := i + 1;
    }
    PlansSound(items, envs, urlOk);
    ProcessShape(old(store.links), plans, envs, origin, urlOk, |items|);
    ListsPartition(outs);
    var status := if |success| > 0 then CREATED else BAD_REQUEST;
    resp := Response(status, BatchReport(Summary(|items|, |success|, |errors|), success, errors));
  }
}
