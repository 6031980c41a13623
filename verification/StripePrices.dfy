/**
 * Creating in Stripe what the plans lack (server/src/billing.ts, createMissingStripePrices): a price for
 * each tariff without one, and a product for each plan that needs it. Any call may fail.
 */
module StripePrices {
  import opened Collections

  datatype Interval = Month | Year | Once

  datatype Mode = Subscription | Payment

  /** A tariff of a plan. An empty text stands for a field that is absent. */
  datatype Price = Price(id: string, text: string, stripePriceId: string, mode: Mode, amount: Option<int>,
                         currency: string, interval: Option<Interval>)

  datatype Plan = Plan(id: string, name: string, description: string, prices: seq<Price>, productId: string)

  /* ── Stripe ────────────────────────────────────────────────────────── */

  datatype Product = Product(plan: string, name: string, description: string, id: string)

  datatype StripePrice = StripePrice(plan: string, price: string, product: string, amount: int, currency: string,
                                     interval: Interval, id: string)

  /** A call that fails makes nothing. One that answers has made an object, whatever it answers. */
  datatype Answer = Refused | Made(id: string)

  predicate Alphanumeric(t: string) {
    forall c :: c in t ==> 'A' <= c <= 'Z' || 'a' <= c <= 'z' || '0' <= c <= '9'
  }

  predicate IsProductId(id: string) {
    |id| > 5 && id[..5] == "prod_" && Alphanumeric(id[5..])
  }

  predicate IsPriceId(id: string) {
    |id| > 6 && id[..6] == "price_" && Alphanumeric(id[6..])
  }

  /** What Stripe holds. */
  datatype Held = Held(products: seq<Product>, prices: seq<StripePrice>)

  /** Stripe's side: what it holds, and what it answers to the n-th call. */
  class Stripe {
    const answers: nat -> Answer
    var calls: nat
    var products: seq<Product>
    var prices: seq<StripePrice>

    constructor (answers: nat -> Answer)
      ensures this.answers == answers && calls == 0 && products == [] && prices == []
    {
      this.answers, calls, products, prices := answers, 0, [], [];
    }

    function Snapshot(): Held
      reads this
    {
      Held(products, prices)
    }

    method PostProduct(plan: string, name: string, description: string) returns (answer: Answer)
      modifies this`calls, this`products
      ensures calls == old(calls) + 1 && answer == answers(old(calls))
      ensures answer.Refused? ==> products == old(products)
      ensures answer.Made? ==> products == old(products) + [Product(plan, name, description, answer.id)]
    {
      answer := answers(calls);
      calls := calls + 1;
      if answer.Made? {
        products := products + [Product(plan, name, description, answer.id)];
      }
    }

    method PostPrice(plan: string, price: string, product: string, amount: int, currency: string, interval: Interval)
      returns (answer: Answer)
      modifies this`calls, this`prices
      ensures calls == old(calls) + 1 && answer == answers(old(calls))
      ensures answer.Refused? ==> prices == old(prices)
      ensures answer.Made? ==>
        prices == old(prices) + [StripePrice(plan, price, product, amount, currency, interval, answer.id)]
    {
      answer := answers(calls);
      calls := calls + 1;
      if answer.Made? {
        prices := prices + [StripePrice(plan, price, product, amount, currency, interval, answer.id)];
      }
    }
  }

  /* ── What is missing, what is made ─────────────────────────────────── */

  datatype Key = Key(plan: string, price: string)

  function LackingOf(plan: string, prices: seq<Price>): multiset<Key> {
    if prices == [] then multiset{}
    else if prices[0].stripePriceId == "" then multiset{Key(plan, prices[0].id)} + LackingOf(plan, prices[1..])
    else LackingOf(plan, prices[1..])
  }

  /** Tariffs without a Stripe price. */
  function Lacking(plans: seq<Plan>): multiset<Key> {
    if plans == [] then multiset{} else LackingOf(plans[0].id, plans[0].prices) + Lacking(plans[1..])
  }

  /** Tariffs of the prices made in Stripe with an id that can be kept. */
  function MadePrices(prices: seq<StripePrice>): multiset<Key> {
    if prices == [] then multiset{}
    else
      var last := prices[|prices| - 1];
      if IsPriceId(last.id) then MadePrices(prices[..|prices| - 1]) + multiset{Key(last.plan, last.price)}
      else MadePrices(prices[..|prices| - 1])
  }

  function MadeProducts(products: seq<Product>): multiset<string> {
    if products == [] then multiset{}
    else
      var last := products[|products| - 1];
      if IsProductId(last.id) then MadeProducts(products[..|products| - 1]) + multiset{last.plan}
      else MadeProducts(products[..|products| - 1])
  }

  /** Plans without a Stripe product. */
  function Bare(plans: seq<Plan>): multiset<string> {
    if plans == [] then multiset{}
    else if plans[0].productId == "" then multiset{plans[0].id} + Bare(plans[1..])
    else Bare(plans[1..])
  }

  /** A tariff can be sent to Stripe. */
  predicate Complete(price: Price) {
    price.amount.Some? && price.currency != "" && price.interval.Some?
  }

  /** A tariff keeps everything it had; it may gain a price, with the mode that goes with its period. */
  predicate PriceKept(before: Price, after: Price) {
    after == before ||
    (before.stripePriceId == "" && Complete(before) && IsPriceId(after.stripePriceId)
     && after == before.(stripePriceId := after.stripePriceId,
                         mode := if before.interval == Some(Once) then Payment else Subscription))
  }

  /** A price will be created for the plan: only then does it get a product. */
  predicate NeedsPrice(plan: Plan) {
    exists t :: t in plan.prices && t.stripePriceId == "" && Complete(t)
  }

  predicate PlanKept(before: Plan, after: Plan) {
    && after == before.(prices := after.prices, productId := after.productId)
    && |before.prices| == |after.prices|
    && (forall i :: 0 <= i < |before.prices| ==> PriceKept(before.prices[i], after.prices[i]))
    && (after.productId == before.productId
        || (before.productId == "" && IsProductId(after.productId) && NeedsPrice(before)))
  }

  predicate PlansKept(before: seq<Plan>, after: seq<Plan>) {
    |before| == |after| && forall i :: 0 <= i < |before| ==> PlanKept(before[i], after[i])
  }

  predicate SameTariff(t: Price, made: StripePrice) {
    && t.id == made.price && t.stripePriceId == made.id
    && t.amount == Some(made.amount) && t.currency == made.currency && t.interval == Some(made.interval)
  }

  /** The plan holds the price made for one of its tariffs, in its product. */
  predicate Holds(plan: Plan, made: StripePrice) {
    plan.id == made.plan && made.product != "" && plan.productId == made.product
      && exists t :: t in plan.prices && SameTariff(t, made)
  }

  /** Prices made from one state to the other, with ids that can be kept, are all in the plans. */
  predicate Recorded(plans: seq<Plan>, held: Held, held': Held) {
    forall i :: |held.prices| <= i < |held'.prices| && IsPriceId(held'.prices[i].id) ==>
      exists p :: p in plans && Holds(p, held'.prices[i])
  }

  /**
   * What any attempt does: plans keep what they have, Stripe keeps what it holds, each tariff that stops
   * lacking a price has one made for it and each price made makes one tariff stop lacking, products
   * likewise, and no price made is lost.
   */
  predicate Progress(plans: seq<Plan>, held: Held, plans': seq<Plan>, held': Held) {
    && PlansKept(plans, plans')
    && held.products <= held'.products && held.prices <= held'.prices
    && MadePrices(held'.prices) + Lacking(plans') == MadePrices(held.prices) + Lacking(plans)
    && MadeProducts(held'.products) + Bare(plans') == MadeProducts(held.products) + Bare(plans)
    && Recorded(plans', held, held')
  }

  lemma {:induction false} LackingOfSum(plan: string, a: seq<Price>, b: seq<Price>)
    ensures LackingOf(plan, a + b) == LackingOf(plan, a) + LackingOf(plan, b)
  {
    if a == [] {
      assert a + b == b;
    } else {
      assert (a + b)[0] == a[0] && (a + b)[1..] == a[1..] + b;
      LackingOfSum(plan, a[1..], b);
    }
  }

  lemma {:induction false} LackingSum(a: seq<Plan>, b: seq<Plan>)
    ensures Lacking(a + b) == Lacking(a) + Lacking(b) && Bare(a + b) == Bare(a) + Bare(b)
  {
    if a == [] {
      assert a + b == b;
    } else {
      assert (a + b)[0] == a[0] && (a + b)[1..] == a[1..] + b;
      LackingSum(a[1..], b);
    }
  }

  lemma NothingIsProgress(plans: seq<Plan>, held: Held)
    ensures Progress(plans, held, plans, held)
  {
  }

  lemma HoldsOn(before: Plan, after: Plan, made: StripePrice)
    requires Holds(before, made) && PlanKept(before, after) && IsPriceId(made.id)
    ensures Holds(after, made)
  {
    var t :| t in before.prices && SameTariff(t, made);
    var i :| 0 <= i < |before.prices| && before.prices[i] == t;
    assert PriceKept(before.prices[i], after.prices[i]);
    assert after.prices[i] in after.prices && SameTariff(after.prices[i], made);
  }

  lemma RecordedOn(plans: seq<Plan>, held: Held, held': Held, plans': seq<Plan>)
    requires Recorded(plans, held, held') && PlansKept(plans, plans')
    ensures Recorded(plans', held, held')
  {
    forall i | |held.prices| <= i < |held'.prices| && IsPriceId(held'.prices[i].id)
      ensures exists p :: p in plans' && Holds(p, held'.prices[i])
    {
      var p :| p in plans && Holds(p, held'.prices[i]);
      var k :| 0 <= k < |plans| && plans[k] == p;
      HoldsOn(plans[k], plans'[k], held'.prices[i]);
      assert plans'[k] in plans';
    }
  }

  lemma RecordedTogether(plans: seq<Plan>, held: Held, held': Held, held'': Held)
    requires held.prices <= held'.prices <= held''.prices
    requires Recorded(plans, held, held') && Recorded(plans, held', held'')
    ensures Recorded(plans, held, held'')
  {
    forall i | |held.prices| <= i < |held''.prices| && IsPriceId(held''.prices[i].id)
      ensures exists p :: p in plans && Holds(p, held''.prices[i])
    {
      if i < |held'.prices| { assert held''.prices[i] == held'.prices[i]; }
    }
  }

  lemma RecordedInMore(plans: seq<Plan>, more: seq<Plan>, held: Held, held': Held)
    requires Recorded(plans, held, held') && forall p :: p in plans ==> p in more
    ensures Recorded(more, held, held')
  {
  }

  lemma KeptTwice(before: Plan, between: Plan, after: Plan)
    requires PlanKept(before, between) && PlanKept(between, after)
    ensures PlanKept(before, after)
  {
    forall i | 0 <= i < |before.prices| ensures PriceKept(before.prices[i], after.prices[i]) {
      assert PriceKept(before.prices[i], between.prices[i]) && PriceKept(between.prices[i], after.prices[i]);
    }
    if NeedsPrice(between) {
      var t :| t in between.prices && t.stripePriceId == "" && Complete(t);
      var i :| 0 <= i < |between.prices| && between.prices[i] == t;
      assert PriceKept(before.prices[i], between.prices[i]) && before.prices[i] in before.prices;
    }
  }

  /** Attempts in a row do together what one does. */
  lemma ProgressTwice(plans: seq<Plan>, held: Held, plans': seq<Plan>, held': Held, plans'': seq<Plan>, held'': Held)
    requires Progress(plans, held, plans', held') && Progress(plans', held', plans'', held'')
    ensures Progress(plans, held, plans'', held'')
  {
    forall i | 0 <= i < |plans| ensures PlanKept(plans[i], plans''[i]) {
      KeptTwice(plans[i], plans'[i], plans''[i]);
    }
    RecordedOn(plans', held, held', plans'');
    RecordedTogether(plans'', held, held', held'');
  }

  /** What is made and what is lacking balance on both sides. */
  lemma BothBalance<T>(made: multiset<T>, a: multiset<T>, made': multiset<T>, a': multiset<T>, b: multiset<T>,
                       made'': multiset<T>, b': multiset<T>)
    requires made' + a' == made + a && made'' + b' == made' + b
    ensures made'' + (a' + b') == made + (a + b)
  {
    assert made'' + (a' + b') == made'' + b' + a';
    assert made' + b + a' == made' + a' + b;
    assert made + a + b == made + (a + b);
  }

  lemma Around<T>(made: multiset<T>, made': multiset<T>, before: multiset<T>, x: multiset<T>, x': multiset<T>,
                  rest: multiset<T>)
    requires made' + x' == made + x
    ensures made' + (before + x' + rest) == made + (before + x + rest)
  {
    assert made' + (before + x' + rest) == made' + x' + (before + rest);
    assert made + (before + x + rest) == made + x + (before + rest);
  }

  lemma ProgressOnBothKeeps(a: seq<Plan>, b: seq<Plan>, a': seq<Plan>, b': seq<Plan>)
    requires PlansKept(a, a') && PlansKept(b, b')
    ensures PlansKept(a + b, a' + b')
  {
  }

  /** Progress on some plans, then on others. */
  lemma ProgressOnBoth(a: seq<Plan>, b: seq<Plan>, held: Held, a': seq<Plan>, held': Held, b': seq<Plan>, held'': Held)
    requires Progress(a, held, a', held') && Progress(b, held', b', held'')
    ensures Progress(a + b, held, a' + b', held'')
  {
    LackingSum(a, b);
    LackingSum(a', b');
    ProgressOnBothKeeps(a, b, a', b');
    BothBalance(MadePrices(held.prices), Lacking(a), MadePrices(held'.prices), Lacking(a'), Lacking(b),
                MadePrices(held''.prices), Lacking(b'));
    BothBalance(MadeProducts(held.products), Bare(a), MadeProducts(held'.products), Bare(a'), Bare(b),
                MadeProducts(held''.products), Bare(b'));
    RecordedInMore(a', a' + b', held, held');
    RecordedInMore(b', a' + b', held', held'');
    RecordedTogether(a' + b', held, held', held'');
  }

  lemma LackingAround(plan: string, before: seq<Price>, tariff: Price, rest: seq<Price>)
    ensures LackingOf(plan, before + [tariff] + rest)
      == LackingOf(plan, before) + LackingOf(plan, [tariff]) + LackingOf(plan, rest)
  {
    LackingOfSum(plan, before + [tariff], rest);
    LackingOfSum(plan, before, [tariff]);
  }

  lemma InsideKeeps(plan: Plan, before: seq<Price>, tariff: Price, rest: seq<Price>, held: Held, tariff': Price,
                    productId: string, held': Held)
    requires PlanKept(plan.(prices := [tariff]), plan.(prices := [tariff'], productId := productId))
    requires Recorded([plan.(prices := [tariff'], productId := productId)], held, held')
    ensures PlanKept(plan.(prices := before + [tariff] + rest),
                     plan.(prices := before + [tariff'] + rest, productId := productId))
    ensures Recorded([plan.(prices := before + [tariff'] + rest, productId := productId)], held, held')
  {
    var p, p' := plan.(prices := [tariff]), plan.(prices := [tariff'], productId := productId);
    var q, q' := plan.(prices := before + [tariff] + rest),
      plan.(prices := before + [tariff'] + rest, productId := productId);
    assert PriceKept(p.prices[0], p'.prices[0]);
    assert tariff in q.prices && forall t :: t in p.prices ==> t == tariff;
    forall i | |held.prices| <= i < |held'.prices| && IsPriceId(held'.prices[i].id)
      ensures exists x :: x in [q'] && Holds(x, held'.prices[i])
    {
      assert tariff' in q'.prices && SameTariff(tariff', held'.prices[i]);
      assert q' in [q'] && Holds(q', held'.prices[i]);
    }
  }

  /** Progress on one tariff of a plan is progress on the plan. */
  lemma ProgressInside(plan: Plan, before: seq<Price>, tariff: Price, rest: seq<Price>, held: Held, tariff': Price,
                       productId: string, held': Held)
    requires Progress([plan.(prices := [tariff])], held, [plan.(prices := [tariff'], productId := productId)], held')
    ensures Progress([plan.(prices := before + [tariff] + rest)], held,
                     [plan.(prices := before + [tariff'] + rest, productId := productId)], held')
  {
    var p, p' := plan.(prices := [tariff]), plan.(prices := [tariff'], productId := productId);
    assert PlanKept([p][0], [p'][0]);
    InsideKeeps(plan, before, tariff, rest, held, tariff', productId, held');
    LackingAround(plan.id, before, tariff, rest);
    LackingAround(plan.id, before, tariff', rest);
    LackingOne(p);
    LackingOne(p');
    LackingOne(plan.(prices := before + [tariff] + rest));
    LackingOne(plan.(prices := before + [tariff'] + rest, productId := productId));
    Around(MadePrices(held.prices), MadePrices(held'.prices), LackingOf(plan.id, before), LackingOf(plan.id, [tariff]),
           LackingOf(plan.id, [tariff']), LackingOf(plan.id, rest));
  }

  lemma LackingOne(plan: Plan)
    ensures Lacking([plan]) == LackingOf(plan.id, plan.prices)
    ensures Bare([plan]) == if plan.productId == "" then multiset{plan.id} else multiset{}
  {
    assert [plan][1..] == [];
  }

  lemma UnusableIsProgress(plans: seq<Plan>, held: Held, held': Held)
    requires held'.products == held.products
      || (held'.products != [] && held'.products[..|held'.products| - 1] == held.products
          && !IsProductId(held'.products[|held'.products| - 1].id))
    requires held'.prices == held.prices
      || (held'.prices != [] && held'.prices[..|held'.prices| - 1] == held.prices
          && !IsPriceId(held'.prices[|held'.prices| - 1].id))
    ensures Progress(plans, held, plans, held')
  {
  }

  lemma ProductIsProgress(plan: Plan, held: Held, id: string)
    requires plan.productId == "" && IsProductId(id) && NeedsPrice(plan)
    ensures Progress([plan], held, [plan.(productId := id)],
                     held.(products := held.products + [Product(plan.id, plan.name, plan.description, id)]))
  {
    var product := Product(plan.id, plan.name, plan.description, id);
    assert (held.products + [product])[..|held.products|] == held.products;
    LackingOne(plan);
    LackingOne(plan.(productId := id));
  }

  lemma PriceIsProgress(plan: Plan, price: Price, held: Held, price': Price, made: StripePrice)
    requires plan.prices == [price] && price.stripePriceId == "" && PriceKept(price, price') && price' != price
    requires SameTariff(price', made) && made.plan == plan.id && made.product == plan.productId != ""
    ensures Progress([plan], held, [plan.(prices := [price'])], held.(prices := held.prices + [made]))
  {
    var plan' := plan.(prices := [price']);
    assert (held.prices + [made])[..|held.prices|] == held.prices;
    LackingOne(plan);
    LackingOne(plan');
    assert price' in plan'.prices && Holds(plan', made) && plan' in [plan'];
  }

  /* ── The creation ──────────────────────────────────────────────────── */

  datatype Error = InvalidPrice | CallFailed | UnexpectedId

  /** An attempt stopped by a call was stopped by its last one, which failed or answered an id that cannot be kept. */
  predicate Stopped(error: Error, calls: nat, held: Held, answers: nat -> Answer, calls': nat, held': Held) {
    match error
    case InvalidPrice => true
    case CallFailed => calls < calls' && answers(calls' - 1).Refused?
    case UnexpectedId => calls < calls' && (LastPriceUnusable(held, held') || LastProductUnusable(held, held'))
  }

  predicate LastPriceUnusable(held: Held, held': Held) {
    |held'.prices| > |held.prices| && !IsPriceId(held'.prices[|held'.prices| - 1].id)
  }

  predicate LastProductUnusable(held: Held, held': Held) {
    |held'.products| > |held.products| && !IsProductId(held'.products[|held'.products| - 1].id)
  }

  /** Where an attempt stands: calls made, what Stripe holds, the product and the tariffs of the plan. */
  datatype Stand = Stand(calls: nat, held: Held, product: string, prices: seq<Price>, error: Option<Error>)

  /** What an attempt does, call by call. */
  function RunProduct(answers: nat -> Answer, calls: nat, held: Held, plan: Plan): Stand {
    if plan.productId != "" then Stand(calls, held, plan.productId, plan.prices, None)
    else
      match answers(calls)
      case Refused => Stand(calls + 1, held, "", plan.prices, Some(CallFailed))
      case Made(id) =>
        var made := held.(products := held.products + [Product(plan.id, plan.name, plan.description, id)]);
        if IsProductId(id) then Stand(calls + 1, made, id, plan.prices, None)
        else Stand(calls + 1, made, "", plan.prices, Some(UnexpectedId))
  }

  /** The price of a complete tariff, in the product of its plan. */
  function RunSend(answers: nat -> Answer, calls: nat, held: Held, plan: Plan, price: Price): Stand
    requires Complete(price)
  {
    match answers(calls)
    case Refused => Stand(calls + 1, held, plan.productId, [price], Some(CallFailed))
    case Made(id) =>
      var record :=
        StripePrice(plan.id, price.id, plan.productId, price.amount.value, price.currency, price.interval.value, id);
      var made := held.(prices := held.prices + [record]);
      if IsPriceId(id) then Stand(calls + 1, made, plan.productId, [Filled(price, id)], None)
      else Stand(calls + 1, made, plan.productId, [price], Some(UnexpectedId))
  }

  /** For a plan with one tariff, which lacks a price. */
  function RunPrice(answers: nat -> Answer, calls: nat, held: Held, plan: Plan, price: Price): Stand {
    if !Complete(price) then Stand(calls, held, plan.productId, [price], Some(InvalidPrice))
    else
      var p := RunProduct(answers, calls, held, plan);
      if p.error.Some? then p.(prices := [price])
      else RunSend(answers, p.calls, p.held, plan.(productId := p.product), price)
  }

  function Filled(price: Price, id: string): Price {
    price.(stripePriceId := id, mode := if price.interval == Some(Once) then Payment else Subscription)
  }

  function RunPrices(answers: nat -> Answer, calls: nat, held: Held, plan: Plan, product: string,
                     prices: seq<Price>): Stand
    decreases |prices|
  {
    if prices == [] then Stand(calls, held, product, [], None)
    else
      var price := prices[0];
      var one := if price.stripePriceId != "" then Stand(calls, held, product, [price], None)
                 else RunPrice(answers, calls, held, plan.(prices := [price], productId := product), price);
      if one.error.Some? then one.(prices := prices)
      else
        var rest := RunPrices(answers, one.calls, one.held, plan, one.product, prices[1..]);
        rest.(prices := one.prices + rest.prices)
  }

  datatype StandAll = StandAll(calls: nat, held: Held, plans: seq<Plan>, error: Option<Error>)

  function RunPlan(answers: nat -> Answer, calls: nat, held: Held, plan: Plan): StandAll {
    var s := RunPrices(answers, calls, held, plan, plan.productId, plan.prices);
    StandAll(s.calls, s.held, [plan.(prices := s.prices, productId := s.product)], s.error)
  }

  function RunPlans(answers: nat -> Answer, calls: nat, held: Held, plans: seq<Plan>): StandAll
    decreases |plans|
  {
    if plans == [] then StandAll(calls, held, [], None)
    else
      var one := RunPlan(answers, calls, held, plans[0]);
      if one.error.Some? then one.(plans := one.plans + plans[1..])
      else
        var rest := RunPlans(answers, one.calls, one.held, plans[1..]);
        rest.(plans := one.plans + rest.plans)
  }

  /** The same, with tariffs or plans gone through before. */
  function Ahead(done: seq<Price>, s: Stand): Stand {
    s.(prices := done + s.prices)
  }

  function AheadAll(done: seq<Plan>, s: StandAll): StandAll {
    s.(plans := done + s.plans)
  }

  lemma SkipRuns(answers: nat -> Answer, calls: nat, held: Held, plan: Plan, product: string, done: seq<Price>,
                 rest: seq<Price>)
    requires rest != [] && rest[0].stripePriceId != ""
    ensures Ahead(done, RunPrices(answers, calls, held, plan, product, rest))
            == Ahead(done + [rest[0]], RunPrices(answers, calls, held, plan, product, rest[1..]))
  {
    var after := RunPrices(answers, calls, held, plan, product, rest[1..]);
    assert done + ([rest[0]] + after.prices) == done + [rest[0]] + after.prices;
  }

  lemma MadeRuns(answers: nat -> Answer, calls: nat, held: Held, plan: Plan, product: string, done: seq<Price>,
                 rest: seq<Price>, one: Stand)
    requires rest != [] && rest[0].stripePriceId == ""
    requires one == RunPrice(answers, calls, held, plan.(prices := [rest[0]], productId := product), rest[0])
    ensures one.error.Some? ==>
      Ahead(done, RunPrices(answers, calls, held, plan, product, rest)) == Ahead(done, one.(prices := rest))
    ensures one.error.None? ==>
      Ahead(done, RunPrices(answers, calls, held, plan, product, rest))
      == Ahead(done + one.prices, RunPrices(answers, one.calls, one.held, plan, one.product, rest[1..]))
  {
    var after := RunPrices(answers, one.calls, one.held, plan, one.product, rest[1..]);
    assert done + (one.prices + after.prices) == done + one.prices + after.prices;
  }

  lemma PlanRuns(answers: nat -> Answer, calls: nat, held: Held, done: seq<Plan>, rest: seq<Plan>, one: StandAll)
    requires rest != [] && one == RunPlan(answers, calls, held, rest[0])
    ensures one.error.Some? ==>
      AheadAll(done, RunPlans(answers, calls, held, rest)) == one.(plans := done + one.plans + rest[1..])
    ensures one.error.None? ==>
      AheadAll(done, RunPlans(answers, calls, held, rest))
      == AheadAll(done + one.plans, RunPlans(answers, one.calls, one.held, rest[1..]))
  {
    var after := RunPlans(answers, one.calls, one.held, rest[1..]);
    assert done + (one.plans + after.plans) == done + one.plans + after.plans;
    assert done + (one.plans + rest[1..]) == done + one.plans + rest[1..];
  }

  /** The product of a plan, created if there is none. */
  method ProductOf(plan: Plan, stripe: Stripe) returns (product: string, error: Option<Error>)
    requires NeedsPrice(plan)
    modifies stripe`calls, stripe`products
    ensures Progress([plan], old(stripe.Snapshot()), [plan.(productId := product)], stripe.Snapshot())
    ensures error.None? ==> product != ""
    ensures stripe.calls >= old(stripe.calls) && error != Some(InvalidPrice)
    ensures error.Some? ==>
      product == plan.productId
        && Stopped(error.value, old(stripe.calls), old(stripe.Snapshot()), stripe.answers, stripe.calls,
                   stripe.Snapshot())
    ensures RunProduct(stripe.answers, old(stripe.calls), old(stripe.Snapshot()), plan)
      == Stand(stripe.calls, stripe.Snapshot(), product, plan.prices, error)
    ensures plan.productId != "" ==> stripe.calls == old(stripe.calls) && stripe.products == old(stripe.products)
    ensures plan.productId == "" ==>
      var answer := stripe.answers(old(stripe.calls));
      && stripe.calls == old(stripe.calls) + 1
      && (answer.Refused? ==> stripe.products == old(stripe.products) && error == Some(CallFailed))
      && (answer.Made? ==>
            && stripe.products == old(stripe.products) + [Product(plan.id, plan.name, plan.description, answer.id)]
            && (error.None? <==> IsProductId(answer.id)) && (error.None? ==> product == answer.id))
  {
    product, error := plan.productId, None;
    NothingIsProgress([plan], stripe.Snapshot());
    if product == "" {
      ghost var held := stripe.Snapshot();
      var answer := stripe.PostProduct(plan.id, plan.name, plan.description);
      if answer.Refused? {
        return product, Some(CallFailed);
      }
      if !IsProductId(answer.id) {
        UnusableIsProgress([plan], held, stripe.Snapshot());
        return product, Some(UnexpectedId);
      }
      ProductIsProgress(plan, held, answer.id);
      product := answer.id;
    }
  }

  /** The price of a complete tariff, once its plan has a product. */
  method SendPrice(plan: Plan, price: Price, stripe: Stripe) returns (made: Price, error: Option<Error>)
    requires plan.prices == [price] && price.stripePriceId == "" && Complete(price) && plan.productId != ""
    modifies stripe`calls, stripe`prices
    ensures Progress([plan], old(stripe.Snapshot()), [plan.(prices := [made])], stripe.Snapshot())
    ensures stripe.calls >= old(stripe.calls) && error != Some(InvalidPrice)
      && (error.None? ==> made.stripePriceId != "")
    ensures error.Some? ==>
      made == price
        && Stopped(error.value, old(stripe.calls), old(stripe.Snapshot()), stripe.answers, stripe.calls,
                   stripe.Snapshot())
    ensures RunSend(stripe.answers, old(stripe.calls), old(stripe.Snapshot()), plan, price)
            == Stand(stripe.calls, stripe.Snapshot(), plan.productId, [made], error)
    ensures stripe.calls == old(stripe.calls) + 1
    ensures var answer := stripe.answers(old(stripe.calls));
            && (answer.Refused? ==> stripe.prices == old(stripe.prices) && error == Some(CallFailed))
            && (answer.Made? ==>
                  && stripe.prices == old(stripe.prices)
                    + [StripePrice(plan.id, price.id, plan.productId, price.amount.value, price.currency,
                                   price.interval.value, answer.id)]
                  && (error.None? <==> IsPriceId(answer.id)))
            && (error.None? ==>
                  && made.stripePriceId == answer.id && made.id == price.id && made.amount == price.amount
                  && made.mode == if price.interval == Some(Once) then Payment else Subscription)
  {
    made, error := price, None;
    ghost var held := stripe.Snapshot();
    NothingIsProgress([plan], held);
    var answer :=
      stripe.PostPrice(plan.id, price.id, plan.productId, price.amount.value, price.currency, price.interval.value);
    if answer.Refused? {
      error := Some(CallFailed);
    } else if !IsPriceId(answer.id) {
      UnusableIsProgress([plan], held, stripe.Snapshot());
      error := Some(UnexpectedId);
    } else {
      made := price.(stripePriceId := answer.id,
                     mode := if price.interval.value == Once then Payment else Subscription);
      assert made == Filled(price, answer.id);
      PriceIsProgress(plan, price, held, made, stripe.prices[|stripe.prices| - 1]);
    }
  }

  /** One tariff without a price: creates it, in the product of its plan. `plan` has this tariff alone. */
  method CreatePrice(plan: Plan, price: Price, stripe: Stripe)
    returns (product: string, made: Price, error: Option<Error>)
    requires plan.prices == [price] && price.stripePriceId == ""
    modifies stripe`calls, stripe`products, stripe`prices
    ensures Progress([plan], old(stripe.Snapshot()), [plan.(prices := [made], productId := product)], stripe.Snapshot())
    ensures stripe.calls >= old(stripe.calls) && (error.None? ==> made.stripePriceId != "")
    ensures error.Some? ==>
      made == price
        && Stopped(error.value, old(stripe.calls), old(stripe.Snapshot()), stripe.answers, stripe.calls,
                   stripe.Snapshot())
    ensures error == Some(InvalidPrice) <==> !Complete(price)
    ensures RunPrice(stripe.answers, old(stripe.calls), old(stripe.Snapshot()), plan, price)
      == Stand(stripe.calls, stripe.Snapshot(), product, [made], error)
  {
    product, made, error := plan.productId, price, None;
    ghost var held := stripe.Snapshot();
    NothingIsProgress([plan], held);
    if price.amount.None? || price.currency == "" || price.interval.None? {
      return product, made, Some(InvalidPrice);
    }
    assert price in plan.prices;
    product, error := ProductOf(plan, stripe);
    if error.None? {
      ghost var ready, between, calls := plan.(productId := product), stripe.Snapshot(), stripe.calls;
      made, error := SendPrice(plan.(productId := product), price, stripe);
      ProgressTwice([plan], held, [ready], between, [ready.(prices := [made])], stripe.Snapshot());
      if error.Some? {
        StoppedLater(error.value, old(stripe.calls), held, calls, between, stripe.answers, stripe.calls,
                     stripe.Snapshot());
      }
    }
  }

  lemma StoppedLater(error: Error, calls: nat, held: Held, calls': nat, between: Held, answers: nat -> Answer,
                     calls'': nat, held': Held)
    requires Stopped(error, calls', between, answers, calls'', held')
    requires calls <= calls' && held.products <= between.products && held.prices <= between.prices
    ensures Stopped(error, calls, held, answers, calls'', held')
  {}

  /** Whether an attempt stopped with an error, or left nothing to create. */
  predicate Ended(error: Option<Error>, plans: seq<Plan>, plans': seq<Plan>, calls: nat, held: Held,
                  answers: nat -> Answer, calls': nat, held': Held)
  {
    match error
    case None => Lacking(plans') == multiset{}
    case Some(e) =>
      Stopped(e, calls, held, answers, calls', held')
        && (e == InvalidPrice ==> exists p, t :: p in plans && t in p.prices && t.stripePriceId == "" && !Complete(t))
  }

  /** The plan while its tariffs are gone through: those done, then the others as they were. */
  function Partial(plan: Plan, done: seq<Price>, productId: string): Plan
    requires |done| <= |plan.prices|
  {
    plan.(prices := done + plan.prices[|done|..], productId := productId)
  }

  lemma TurnIsProgress(plan: Plan, done: seq<Price>, productId: string, held: Held, between: Held, made: Price,
                       product: string, held': Held)
    requires |done| < |plan.prices| && Progress([plan], held, [Partial(plan, done, productId)], between)
    requires var price := plan.prices[|done|];
      Progress([plan.(prices := [price], productId := productId)], between,
               [plan.(prices := [made], productId := product)], held')
    ensures Progress([plan], held, [Partial(plan, done + [made], product)], held')
  {
    var price, rest := plan.prices[|done|], plan.prices[|done| + 1..];
    assert plan.prices[|done|..] == [price] + rest;
    assert done + plan.prices[|done|..] == done + [price] + rest;
    var bare := plan.(productId := productId);
    ProgressInside(bare, done, price, rest, between, made, product, held');
    assert bare.(prices := done + [price] + rest) == Partial(plan, done, productId);
    assert bare.(prices := done + [made] + rest, productId := product) == Partial(plan, done + [made], product);
    ProgressTwice([plan], held, [Partial(plan, done, productId)], between, [Partial(plan, done + [made], product)],
                  held');
  }

  lemma PartialUnchanged(plan: Plan, done: seq<Price>, productId: string)
    requires |done| < |plan.prices|
    ensures Partial(plan, done + [plan.prices[|done|]], productId) == Partial(plan, done, productId)
  {
    assert plan.prices[|done|..] == [plan.prices[|done|]] + plan.prices[|done| + 1..];
  }

  lemma LackingFrom(plan: Plan, k: nat)
    requires k < |plan.prices|
    ensures var price := plan.prices[k];
      |LackingOf(plan.id, plan.prices[k..])| == |LackingOf(plan.id, plan.prices[k + 1..])|
        + if price.stripePriceId == "" then 1 else 0
  {
    assert plan.prices[k..][1..] == plan.prices[k + 1..];
  }

  lemma DoneLacksNothing(plan: string, done: seq<Price>, price: Price)
    requires LackingOf(plan, done) == multiset{} && price.stripePriceId != ""
    ensures LackingOf(plan, done + [price]) == multiset{}
  {
    LackingOfSum(plan, done, [price]);
  }

  lemma PartialLacks(plan: Plan, done: seq<Price>, productId: string)
    requires |done| <= |plan.prices| && LackingOf(plan.id, done) == multiset{}
    ensures Lacking([Partial(plan, done, productId)]) == LackingOf(plan.id, plan.prices[|done|..])
  {
    LackingOfSum(plan.id, done, plan.prices[|done|..]);
    LackingOne(Partial(plan, done, productId));
  }

  /** The tariffs of `done` have their price, and `created` were made. */
  ghost predicate Going(plan: Plan, held: Held, done: seq<Price>, productId: string, created: nat, held': Held) {
    && |done| <= |plan.prices| && LackingOf(plan.id, done) == multiset{}
    && Progress([plan], held, [Partial(plan, done, productId)], held')
    && created + |LackingOf(plan.id, plan.prices[|done|..])| == |LackingOf(plan.id, plan.prices)|
  }

  lemma SkipTurn(plan: Plan, held: Held, done: seq<Price>, productId: string, created: nat, held': Held)
    requires |done| < |plan.prices| && plan.prices[|done|].stripePriceId != ""
    requires Going(plan, held, done, productId, created, held')
    ensures Going(plan, held, done + [plan.prices[|done|]], productId, created, held')
  {
    LackingFrom(plan, |done|);
    PartialUnchanged(plan, done, productId);
    DoneLacksNothing(plan.id, done, plan.prices[|done|]);
  }

  lemma MadeTurn(plan: Plan, held: Held, done: seq<Price>, productId: string, created: nat, between: Held, made: Price,
                 product: string, held': Held)
    requires |done| < |plan.prices| && plan.prices[|done|].stripePriceId == ""
    requires Going(plan, held, done, productId, created, between)
    requires var price := plan.prices[|done|];
      Progress([plan.(prices := [price], productId := productId)], between,
               [plan.(prices := [made], productId := product)], held')
    ensures made.stripePriceId != "" ==> Going(plan, held, done + [made], product, created + 1, held')
    ensures made == plan.prices[|done|] ==> Going(plan, held, done, product, created, held')
  {
    TurnIsProgress(plan, done, productId, held, between, made, product, held');
    LackingFrom(plan, |done|);
    if made.stripePriceId != "" {
      DoneLacksNothing(plan.id, done, made);
    }
    PartialUnchanged(plan, done, product);
  }

  lemma GoingMeans(plan: Plan, held: Held, done: seq<Price>, productId: string, created: nat, held': Held)
    requires Going(plan, held, done, productId, created, held')
    ensures created + |Lacking([Partial(plan, done, productId)])| == |Lacking([plan])|
    ensures |done| == |plan.prices| ==> Lacking([Partial(plan, done, productId)]) == multiset{}
  {
    PartialLacks(plan, done, productId);
    LackingOne(plan);
  }

  /** One turn of the loop over the tariffs of a plan: one that has its price is passed over. */
  method CreateNext(plan: Plan, prices: seq<Price>, productId: string, created: nat, stripe: Stripe, ghost held: Held,
                    ghost run: Stand)
    returns (done: seq<Price>, product: string, count: nat, error: Option<Error>)
    requires |prices| < |plan.prices| && Going(plan, held, prices, productId, created, stripe.Snapshot())
    requires run
      == Ahead(prices,
               RunPrices(stripe.answers, stripe.calls, stripe.Snapshot(), plan, productId, plan.prices[|prices|..]))
    modifies stripe`calls, stripe`products, stripe`prices
    ensures stripe.calls >= old(stripe.calls) && Going(plan, held, done, product, count, stripe.Snapshot())
    ensures |done| == if error.None? then |prices| + 1 else |prices|
    ensures run == if error.None?
                   then Ahead(done,
                              RunPrices(stripe.answers, stripe.calls, stripe.Snapshot(), plan, product,
                                        plan.prices[|done|..]))
                   else Stand(stripe.calls, stripe.Snapshot(), product, done + plan.prices[|done|..], error)
    ensures error.Some? ==>
      Stopped(error.value, old(stripe.calls), old(stripe.Snapshot()), stripe.answers, stripe.calls, stripe.Snapshot())
    ensures error == Some(InvalidPrice) ==>
      plan.prices[|prices|].stripePriceId == "" && !Complete(plan.prices[|prices|])
  {
    var price := plan.prices[|prices|];
    ghost var rest := plan.prices[|prices|..];
    assert rest[0] == price && rest[1..] == plan.prices[|prices| + 1..];
    if price.stripePriceId != "" {
      SkipTurn(plan, held, prices, productId, created, stripe.Snapshot());
      SkipRuns(stripe.answers, stripe.calls, stripe.Snapshot(), plan, productId, prices, rest);
      return prices + [price], productId, created, None;
    }
    ghost var between, calls := stripe.Snapshot(), stripe.calls;
    var made;
    product, made, error := CreatePrice(plan.(prices := [price], productId := productId), price, stripe);
    MadeTurn(plan, held, prices, productId, created, between, made, product, stripe.Snapshot());
    MadeRuns(stripe.answers, calls, between, plan, productId, prices, rest,
             Stand(stripe.calls, stripe.Snapshot(), product, [made], error));
    done := if error.Some? then prices else prices + [made];
    count := if error.Some? then created else created + 1;
  }

  /** One plan: its tariffs in order, until one fails; the others are left as they are. */
  method CreatePlanPrices(plan: Plan, stripe: Stripe) returns (filled: Plan, created: nat, error: Option<Error>)
    modifies stripe`calls, stripe`products, stripe`prices
    ensures Progress([plan], old(stripe.Snapshot()), [filled], stripe.Snapshot())
    ensures created + |Lacking([filled])| == |Lacking([plan])|
    ensures stripe.calls >= old(stripe.calls)
    ensures Ended(error, [plan], [filled], old(stripe.calls), old(stripe.Snapshot()), stripe.answers, stripe.calls,
                  stripe.Snapshot())
    ensures RunPlan(stripe.answers, old(stripe.calls), old(stripe.Snapshot()), plan)
      == StandAll(stripe.calls, stripe.Snapshot(), [filled], error)
  {
    created, error := 0, None;
    var productId, prices := plan.productId, [];
    ghost var run := RunPrices(stripe.answers, stripe.calls, stripe.Snapshot(), plan, plan.productId, plan.prices);
    ghost var held := stripe.Snapshot();
    assert Partial(plan, prices, productId) == plan && plan.prices[0..] == plan.prices;
    NothingIsProgress([plan], held);
    while |prices| < |plan.prices|
      invariant Going(plan, held, prices, productId, created, stripe.Snapshot())
      invariant stripe.calls >= old(stripe.calls) && error.None?
      invariant run
        == Ahead(prices,
                 RunPrices(stripe.answers, stripe.calls, stripe.Snapshot(), plan, productId, plan.prices[|prices|..]))
    {
      ghost var between, calls, price := stripe.Snapshot(), stripe.calls, plan.prices[|prices|];
      prices, productId, created, error := CreateNext(plan, prices, productId, created, stripe, held, run);
      if error.Some? {
        filled := Partial(plan, prices, productId);
        GoingMeans(plan, held, prices, productId, created, stripe.Snapshot());
        StoppedPlan(error.value, plan, price, filled, stripe.answers, old(stripe.calls), held, calls, between,
                    stripe.calls, stripe.Snapshot());
        return;
      }
    }
    GoingMeans(plan, held, prices, productId, created, stripe.Snapshot());
    filled := Partial(plan, prices, productId);
  }

  /** What stopped a tariff stopped its plan. */
  lemma StoppedPlan(error: Error, plan: Plan, price: Price, filled: Plan, answers: nat -> Answer,
                    calls: nat, held: Held, calls': nat, between: Held, calls'': nat, held': Held)
    requires Stopped(error, calls', between, answers, calls'', held') && price in plan.prices
    requires error == InvalidPrice ==> price.stripePriceId == "" && !Complete(price)
    requires calls <= calls' && held.products <= between.products && held.prices <= between.prices
    ensures Ended(Some(error), [plan], [filled], calls, held, answers, calls'', held')
  {
    assert plan in [plan];
  }

  /** `done` plans are complete, and `created` prices were made for them. */
  ghost predicate GoingOn(plans: seq<Plan>, i: nat, held: Held, out: seq<Plan>, created: nat, held': Held) {
    i <= |plans| && Lacking(out) == multiset{} && Progress(plans[..i], held, out, held')
      && created == |Lacking(plans[..i])|
  }

  lemma PlanTurn(plans: seq<Plan>, i: nat, held: Held, out: seq<Plan>, created: nat, between: Held, filled: Plan,
                 more: nat, held': Held)
    requires i < |plans| && GoingOn(plans, i, held, out, created, between)
    requires Progress([plans[i]], between, [filled], held') && more + |Lacking([filled])| == |Lacking([plans[i]])|
    ensures Progress(plans[..i + 1], held, out + [filled], held')
    ensures Lacking(out + [filled]) == Lacking([filled])
    ensures created + more + |Lacking(out + [filled])| == |Lacking(plans[..i + 1])|
  {
    assert plans[..i + 1] == plans[..i] + [plans[i]];
    ProgressOnBoth(plans[..i], [plans[i]], held, out, between, [filled], held');
    LackingSum(plans[..i], [plans[i]]);
    LackingSum(out, [filled]);
  }

  /** An attempt that stops leaves the plans after the current one as they are. */
  lemma RestUntouched(plans: seq<Plan>, i: nat, held: Held, out: seq<Plan>, created: nat, held': Held)
    requires i <= |plans| && Progress(plans[..i], held, out, held') && created + |Lacking(out)| == |Lacking(plans[..i])|
    ensures Progress(plans, held, out + plans[i..], held')
    ensures created + |Lacking(out + plans[i..])| == |Lacking(plans)|
  {
    NothingIsProgress(plans[i..], held');
    assert plans == plans[..i] + plans[i..];
    ProgressOnBoth(plans[..i], plans[i..], held, out, held', plans[i..], held');
    LackingSum(plans[..i], plans[i..]);
    LackingSum(out, plans[i..]);
  }

  /** What stopped a plan stopped the attempt. */
  lemma StoppedAttempt(error: Error, plan: Plan, filled: Plan, plans: seq<Plan>, result: seq<Plan>,
                       answers: nat -> Answer, calls: nat, held: Held, calls': nat, between: Held,
                       calls'': nat, held': Held)
    requires Ended(Some(error), [plan], [filled], calls', between, answers, calls'', held')
    requires plan in plans && calls <= calls' && held.products <= between.products && held.prices <= between.prices
    ensures Ended(Some(error), plans, result, calls, held, answers, calls'', held')
  {
  }

  /** Plan after plan. An error stops the attempt; what was created until then is in the result. */
  method CreateMissingStripePrices(plans: seq<Plan>, stripe: Stripe)
    returns (result: seq<Plan>, created: nat, error: Option<Error>)
    modifies stripe`calls, stripe`products, stripe`prices
    ensures Progress(plans, old(stripe.Snapshot()), result, stripe.Snapshot())
    ensures created + |Lacking(result)| == |Lacking(plans)|
    ensures Ended(error, plans, result, old(stripe.calls), old(stripe.Snapshot()), stripe.answers, stripe.calls,
                  stripe.Snapshot())
    ensures RunPlans(stripe.answers, old(stripe.calls), old(stripe.Snapshot()), plans)
      == StandAll(stripe.calls, stripe.Snapshot(), result, error)
  {
    created, error := 0, None;
    var out := [];
    ghost var run := RunPlans(stripe.answers, stripe.calls, stripe.Snapshot(), plans);
    assert plans[0..] == plans;
    ghost var held := stripe.Snapshot();
    NothingIsProgress([], held);
    for i := 0 to |plans|
      invariant GoingOn(plans, i, held, out, created, stripe.Snapshot())
      invariant run == AheadAll(out, RunPlans(stripe.answers, stripe.calls, stripe.Snapshot(), plans[i..]))
      invariant stripe.calls >= old(stripe.calls) && error.None?
    {
      ghost var between, calls := stripe.Snapshot(), stripe.calls;
      var filled, more;
      filled, more, error := CreatePlanPrices(plans[i], stripe);
      PlanTurn(plans, i, held, out, created, between, filled, more, stripe.Snapshot());
      assert plans[i..][0] == plans[i] && plans[i..][1..] == plans[i + 1..];
      PlanRuns(stripe.answers, calls, between, out, plans[i..],
               StandAll(stripe.calls, stripe.Snapshot(), [filled], error));
      out, created := out + [filled], created + more;
      if error.Some? {
        RestUntouched(plans, i + 1, held, out, created, stripe.Snapshot());
        result := out + plans[i + 1..];
        StoppedAttempt(error.value, plans[i], filled, plans, result, stripe.answers, old(stripe.calls), held, calls,
                       between, stripe.calls, stripe.Snapshot());
        return;
      }
    }
    assert plans[..|plans|] == plans;
    result := out;
  }

  /* ── Attempts in a row ─────────────────────────────────────────────── */

  datatype State = State(plans: seq<Plan>, held: Held)

  ghost predicate Attempt(before: State, after: State, created: nat) {
    Progress(before.plans, before.held, after.plans, after.held)
      && created + |Lacking(after.plans)| == |Lacking(before.plans)|
  }

  /** Each attempt starts from the plans the one before returned; `created` are the numbers they gave. */
  ghost predicate Attempts(states: seq<State>, created: seq<nat>) {
    |states| == |created| + 1 && forall i :: 0 <= i < |created| ==> Attempt(states[i], states[i + 1], created[i])
  }

  function Total(counts: seq<nat>): nat {
    if counts == [] then 0 else Total(counts[..|counts| - 1]) + counts[|counts| - 1]
  }

  lemma {:induction false} AttemptsAreProgress(states: seq<State>, created: seq<nat>)
    requires Attempts(states, created)
    ensures Attempt(states[0], states[|created|], Total(created))
  {
    if created == [] {
      NothingIsProgress(states[0].plans, states[0].held);
    } else {
      var n := |created| - 1;
      var first, before, last := states[0], states[n], states[n + 1];
      AttemptsAreProgress(states[..n + 1], created[..n]);
      assert Attempt(states[n], states[n + 1], created[n]);
      ProgressTwice(first.plans, first.held, before.plans, before.held, last.plans, last.held);
    }
  }

  /** Ids are unique, as plan settings require: plans among themselves, tariffs in their plan. */
  predicate UniqueIds(plans: seq<Plan>) {
    && (forall i, j :: 0 <= i < j < |plans| ==> plans[i].id != plans[j].id)
    && forall p :: p in plans ==> UniqueTariffs(p.prices)
  }

  predicate UniqueTariffs(prices: seq<Price>) {
    forall i, j :: 0 <= i < j < |prices| ==> prices[i].id != prices[j].id
  }

  lemma {:induction false} LackingOfOnce(plan: string, prices: seq<Price>, key: Key)
    requires UniqueTariffs(prices)
    ensures LackingOf(plan, prices)[key] <= 1
    ensures key in LackingOf(plan, prices) ==> key.plan == plan && exists t :: t in prices && t.id == key.price
  {
    if prices != [] {
      LackingOfOnce(plan, prices[1..], key);
      assert forall t :: t in prices[1..] ==> t in prices && t.id != prices[0].id;
      assert prices[0] in prices;
    }
  }

  lemma {:induction false} LackingOnce(plans: seq<Plan>, key: Key)
    requires UniqueIds(plans)
    ensures Lacking(plans)[key] <= 1 && Bare(plans)[key.plan] <= 1
    ensures key in Lacking(plans) || key.plan in Bare(plans) ==> exists p :: p in plans && p.id == key.plan
  {
    if plans != [] {
      assert plans[0] in plans && forall p :: p in plans[1..] ==> p in plans && p.id != plans[0].id;
      LackingOfOnce(plans[0].id, plans[0].prices, key);
      LackingOnce(plans[1..], key);
    }
  }

  lemma {:induction false} LackingOfShrinks(plan: string, before: seq<Price>, after: seq<Price>)
    requires |before| == |after| && forall i :: 0 <= i < |before| ==> PriceKept(before[i], after[i])
    ensures LackingOf(plan, after) <= LackingOf(plan, before)
  {
    if before != [] {
      assert PriceKept(before[0], after[0]);
      LackingOfShrinks(plan, before[1..], after[1..]);
    }
  }

  lemma {:induction false} LackingShrinks(plans: seq<Plan>, plans': seq<Plan>)
    requires PlansKept(plans, plans')
    ensures Lacking(plans') <= Lacking(plans) && Bare(plans') <= Bare(plans)
  {
    if plans != [] {
      assert PlanKept(plans[0], plans'[0]);
      LackingOfShrinks(plans[0].id, plans[0].prices, plans'[0].prices);
      LackingShrinks(plans[1..], plans'[1..]);
    }
  }

  /**
   * However calls fail, over any number of attempts: a tariff that lacked a price has one made for it if
   * it no longer does, none if it still does, and the others none; a plan likewise with its product. All
   * numbers given add up to what was lacking when nothing is any more. (Counted: objects whose id can be
   * kept.)
   */
  lemma RetriesNeverDuplicate(states: seq<State>, created: seq<nat>, key: Key)
    requires Attempts(states, created) && UniqueIds(states[0].plans)
    ensures var first, last := states[0], states[|created|];
      && MadePrices(last.held.prices)[key]
         == MadePrices(first.held.prices)[key]
           + (if key in Lacking(first.plans) && key !in Lacking(last.plans) then 1 else 0)
      && MadeProducts(last.held.products)[key.plan]
         == MadeProducts(first.held.products)[key.plan]
           + (if key.plan in Bare(first.plans) && key.plan !in Bare(last.plans) then 1 else 0)
      && PlansKept(first.plans, last.plans) && Recorded(last.plans, first.held, last.held)
      && (Lacking(last.plans) == multiset{} ==> Total(created) == |Lacking(first.plans)|)
  {
    var first, last := states[0], states[|created|];
    AttemptsAreProgress(states, created);
    LackingOnce(first.plans, key);
    LackingShrinks(first.plans, last.plans);
    Difference(MadePrices(first.held.prices), Lacking(first.plans),
               MadePrices(last.held.prices), Lacking(last.plans), key);
    Difference(MadeProducts(first.held.products), Bare(first.plans),
               MadeProducts(last.held.products), Bare(last.plans), key.plan);
  }

  lemma Difference<T>(made: multiset<T>, lacking: multiset<T>, made': multiset<T>, lacking': multiset<T>, x: T)
    requires made' + lacking' == made + lacking
    ensures made'[x] + lacking'[x] == made[x] + lacking[x]
  {
    assert (made' + lacking')[x] == (made + lacking)[x];
  }

  /* ── Ids that cannot be kept ───────────────────────────────────────── */

  /** Tariffs of all the prices made in Stripe. */
  function AllPrices(prices: seq<StripePrice>): multiset<Key> {
    if prices == [] then multiset{}
    else
      var last := prices[|prices| - 1];
      AllPrices(prices[..|prices| - 1]) + multiset{Key(last.plan, last.price)}
  }

  /** Tariffs of those answered with an id that cannot be kept. */
  function UnusablePrices(prices: seq<StripePrice>): multiset<Key> {
    if prices == [] then multiset{}
    else
      var last := prices[|prices| - 1];
      if IsPriceId(last.id) then UnusablePrices(prices[..|prices| - 1])
      else UnusablePrices(prices[..|prices| - 1]) + multiset{Key(last.plan, last.price)}
  }

  lemma {:induction false} AllAreMadeOrUnusable(prices: seq<StripePrice>)
    ensures AllPrices(prices) == MadePrices(prices) + UnusablePrices(prices)
  {
    if prices != [] {
      AllAreMadeOrUnusable(prices[..|prices| - 1]);
    }
  }

  /**
   The prices made in all are those kept and those answered with an unusable id. So a tariff that has
   gained its price has more than one in Stripe if and only if some answer about it was unusable.
   */
  lemma DuplicatesComeFromUnusableIds(states: seq<State>, created: seq<nat>, key: Key)
    requires Attempts(states, created) && UniqueIds(states[0].plans)
    ensures var first, last := states[0], states[|created|];
      var gained := key in Lacking(first.plans) && key !in Lacking(last.plans);
      var before, after := first.held.prices, last.held.prices;
      && AllPrices(after)[key] + UnusablePrices(before)[key]
         == AllPrices(before)[key] + UnusablePrices(after)[key] + (if gained then 1 else 0)
      && (gained ==>
            (AllPrices(after)[key] > AllPrices(before)[key] + 1 <==>
             UnusablePrices(after)[key] > UnusablePrices(before)[key]))
  {
    RetriesNeverDuplicate(states, created, key);
    AllAreMadeOrUnusable(states[0].held.prices);
    AllAreMadeOrUnusable(states[|created|].held.prices);
  }

  function OddAnswers(): nat -> Answer {
    n => Made(if n == 0 then "prod_a" else if n == 1 then "oops" else "price_b")
  }

  function Monthly(id: string): Price {
    Price("monthly", "", id, Subscription, Some(500), "eur", Some(Month))
  }

  function Basic(product: string, price: string): Plan {
    Plan("basic", "Basic", "", [Monthly(price)], product)
  }

  lemma OddIds()
    ensures IsProductId("prod_a") && !IsPriceId("oops") && IsPriceId("price_b")
  {
    assert "prod_a"[..5] == "prod_" && "prod_a"[5..] == "a";
    assert "price_b"[..6] == "price_" && "price_b"[6..] == "b";
  }

  function OddPrice(id: string): StripePrice {
    StripePrice("basic", "monthly", "prod_a", 500, "eur", Month, id)
  }

  /** Such a pair of attempts: the first is answered "oops" for the price, the second makes it again. */
  lemma UnusableIdMakesTwoPrices()
    ensures var first := RunPlans(OddAnswers(), 0, Held([], []), [Basic("", "")]);
      var second := RunPlans(OddAnswers(), first.calls, first.held, first.plans);
      && first.error == Some(UnexpectedId) && second.error == None
      && second.plans == [Basic("prod_a", "price_b")] && second.held.prices == [OddPrice("oops"), OddPrice("price_b")]
      && AllPrices(second.held.prices)[Key("basic", "monthly")] == 2
  {
    OddIds();
    FirstIsOdd();
    SecondIsFine();
    var both := [OddPrice("oops"), OddPrice("price_b")];
    assert both[..1] == [OddPrice("oops")] && [OddPrice("oops")][..0] == [];
    assert AllPrices([OddPrice("oops")]) == multiset{Key("basic", "monthly")};
  }

  lemma FirstIsOdd()
    ensures RunPlans(OddAnswers(), 0, Held([], []), [Basic("", "")])
            == StandAll(2, Held([Product("basic", "Basic", "", "prod_a")], [OddPrice("oops")]), [Basic("prod_a", "")],
                        Some(UnexpectedId))
  {
    OddIds();
    var plan := Basic("", "");
    assert plan.(prices := [Monthly("")], productId := "") == plan;
    var one := RunPrice(OddAnswers(), 0, Held([], []), plan, Monthly(""));
    assert one.error == Some(UnexpectedId) && one.calls == 2 && one.product == "prod_a";
    assert RunPlan(OddAnswers(), 0, Held([], []), plan).plans == [Basic("prod_a", "")];
    assert [plan][1..] == [];
  }

  lemma SecondIsFine()
    ensures var held := Held([Product("basic", "Basic", "", "prod_a")], [OddPrice("oops")]);
      RunPlans(OddAnswers(), 2, held, [Basic("prod_a", "")])
      == StandAll(3, held.(prices := [OddPrice("oops"), OddPrice("price_b")]), [Basic("prod_a", "price_b")], None)
  {
    OddIds();
    var held := Held([Product("basic", "Basic", "", "prod_a")], [OddPrice("oops")]);
    var plan := Basic("prod_a", "");
    assert plan.(prices := [Monthly("")], productId := "prod_a") == plan;
    var one := RunPrice(OddAnswers(), 2, held, plan, Monthly(""));
    assert one.error == None && one.calls == 3 && one.prices == [Monthly("price_b")];
    assert plan.prices[1..] == [] && [plan][1..] == [];
    var rest := RunPrices(OddAnswers(), one.calls, one.held, plan, one.product, []);
    assert RunPrices(OddAnswers(), 2, held, plan, "prod_a", plan.prices) == rest.(prices := one.prices + rest.prices);
    assert one.prices + rest.prices == [Monthly("price_b")];
    assert RunPlan(OddAnswers(), 2, held, plan).plans == [Basic("prod_a", "price_b")];
  }
}
