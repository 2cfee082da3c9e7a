/**
 Applying the requested session options against a peer that may change what it advertises at any moment.

 Every look at the negotiated configuration is one value of `read`, so nothing ties one look to the next; the
 peer's answer to call `k` is `answers(k)`.
 */
module SessionSelection {
  import opened Prelude

  /** A choice offers a value itself or a group of values. */
  datatype Choice = Choice(value: Option<string>, group: seq<Option<string>>)

  datatype ConfigOption = ConfigOption(
    id: Option<string>,
    category: Option<string>,
    isSelect: bool,
    choices: seq<Choice>,
    current: Option<string>)

  datatype Configuration = Configuration(options: seq<ConfigOption>, currentMode: Option<string>,
                                         modes: seq<Option<string>>)

  datatype Profile = Profile(options: map<string, string>, model: Option<string>, mode: Option<string>)

  datatype Call = SetOption(id: string, value: string) | SetMode(mode: string)

  datatype SelectionError =
    | Unidentified(category: string)
    | Conflict
    | NotAdvertised
    | ModeNotAdvertised
    | ModeNotApplied
    | NotApplied
    | CallFailed

  function First(options: seq<ConfigOption>, p: ConfigOption -> bool): Option<ConfigOption> {
    if options == [] then None else if p(options[0]) then Some(options[0]) else First(options[1..], p)
  }

  /** The first that has the property, and nothing if none has. */
  lemma {:induction false} FirstExactly(options: seq<ConfigOption>, p: ConfigOption -> bool)
    ensures First(options, p).None? <==> forall i :: 0 <= i < |options| ==> !p(options[i])
    ensures First(options, p).Some? ==>
              exists i :: 0 <= i < |options| && options[i] == First(options, p).value && p(options[i])
                          && forall j :: 0 <= j < i ==> !p(options[j])
  {
    if options != [] && !p(options[0]) {
      FirstExactly(options[1..], p);
    }
  }

  function Named(options: seq<ConfigOption>, id: string): Option<ConfigOption> {
    First(options, (o: ConfigOption) => o.id == Some(id))
  }

  function Categorized(options: seq<ConfigOption>, category: string): Option<ConfigOption> {
    First(options, (o: ConfigOption) => o.category == Some(category))
  }

  predicate Offers(choice: Choice, value: string) { choice.value == Some(value) || Some(value) in choice.group }

  predicate Accepts(options: seq<ConfigOption>, id: string, value: string) {
    var o := Named(options, id);
    o.Some? && o.value.isSelect && exists i :: 0 <= i < |o.value.choices| && Offers(o.value.choices[i], value)
  }

  /** The option that stands for an id is the first with it; it takes a value that one of its choices offers. */
  predicate Takes(o: ConfigOption, value: string) {
    && o.isSelect
    && exists c :: 0 <= c < |o.choices| && (o.choices[c].value == Some(value) || Some(value) in o.choices[c].group)
  }

  predicate FirstWith(options: seq<ConfigOption>, i: nat, id: string) {
    i < |options| && options[i].id == Some(id) && forall j :: 0 <= j < i ==> options[j].id != Some(id)
  }

  lemma AcceptsExactly(options: seq<ConfigOption>, id: string, value: string)
    ensures Accepts(options, id, value) <==> exists i: nat :: FirstWith(options, i, id) && Takes(options[i], value)
  {
    FirstExactly(options, (o: ConfigOption) => o.id == Some(id));
    var o := Named(options, id);
    if o.Some? {
      var i :| 0 <= i < |options| && options[i] == o.value && options[i].id == Some(id)
               && forall j :: 0 <= j < i ==> options[j].id != Some(id);
      assert FirstWith(options, i, id);
      assert Takes(o.value, value) <==>
        o.value.isSelect && exists c :: 0 <= c < |o.value.choices| && Offers(o.value.choices[c], value);
    }
  }

  predicate IsCurrent(options: seq<ConfigOption>, id: string, value: string) {
    exists i :: 0 <= i < |options| && options[i].id == Some(id) && options[i].current == Some(value)
  }

  /** Model selections are sent first, then mode selections, then the rest. */
  function Rank(options: seq<ConfigOption>, id: string): nat {
    var o := Named(options, id);
    if o.None? || o.value.category.None? then 2
    else if o.value.category.value == "model" then 0
    else if o.value.category.value == "mode" then 1
    else 2
  }

  /** Models come first, then modes, then the rest, by the category of the option that stands for the id. */
  lemma RankExactly(options: seq<ConfigOption>, i: nat, id: string)
    requires FirstWith(options, i, id)
    ensures Rank(options, id) == 0 <==> options[i].category == Some("model")
    ensures Rank(options, id) == 1 <==> options[i].category == Some("mode")
    ensures Rank(options, id) <= 2
  {
    FirstExactly(options, (o: ConfigOption) => o.id == Some(id));
  }

  /** What one look resolves a category to. */
  ghost predicate ResolvesTo(options: seq<ConfigOption>, category: string, id: string) {
    Categorized(options, category).Some? && Categorized(options, category).value.id == Some(id)
  }

  function Wanted(profile: Profile, legacy: bool): map<string, string> {
    var model := if profile.model.Some? then map["model" := profile.model.value] else map[];
    if !legacy && profile.mode.Some? then model["mode" := profile.mode.value] else model
  }

  lemma WantedSize(profile: Profile, legacy: bool)
    ensures |Wanted(profile, legacy)| <= if legacy then 1 else 2
    ensures Wanted(profile, legacy).Keys <= {"mode", "model"}
  {
    var keys := Wanted(profile, legacy).Keys;
    var bound := if legacy then {"model"} else {"mode", "model"};
    assert keys <= bound;
    SubsetSize(keys, bound);
    assert |Wanted(profile, legacy)| == |keys|;
  }

  lemma WantedExactly(profile: Profile, legacy: bool)
    ensures var wanted := Wanted(profile, legacy);
      && ("model" in wanted <==> profile.model.Some?)
      && ("mode" in wanted <==> profile.mode.Some? && !legacy)
      && ("model" in wanted ==> wanted["model"] == profile.model.value)
      && ("mode" in wanted ==> wanted["mode"] == profile.mode.value)
  {
  }

  ghost predicate Submap(a: map<string, string>, b: map<string, string>) {
    forall k :: k in a ==> k in b && b[k] == a[k]
  }

  /** The option that a category was resolved to, and the look that showed it. */
  datatype Resolution = Resolution(id: string, look: nat)

  /** The selections so far, what is still to be sent, and the categories, without an option yet or resolved. */
  datatype Plan = Plan(
    selections: map<string, string>,
    pending: map<string, string>,
    categories: map<string, string>,
    resolved: map<string, Resolution>)

  /** `plan` after one look resolved `category` to the option `id`. */
  function Resolved(plan: Plan, category: string, id: string, look: nat): Plan
    requires category in plan.categories
  {
    var value := plan.categories[category];
    Plan(plan.selections[id := value], plan.pending[id := value], plan.categories - {category},
         plan.resolved[category := Resolution(id, look)])
  }

  ghost predicate Conflicts(options: seq<ConfigOption>, category: string, plan: Plan)
    requires category in plan.categories
  {
    exists id :: ResolvesTo(options, category, id) && id in plan.selections
        && plan.selections[id] != plan.categories[category]
  }

  /** Move one category from the wanted ones to the option that one look resolves it to. */
  method ResolveOne(options: seq<ConfigOption>, category: string, plan: Plan, look: nat)
    returns (r: Result<Plan, SelectionError>)
    ensures category !in plan.categories || Categorized(options, category).None? ==> r == Success(plan)
    ensures category in plan.categories && Categorized(options, category).Some? ==>
              match r
              case Success(next) =>
                && (exists id :: ResolvesTo(options, category, id) && next == Resolved(plan, category, id, look))
                && !Conflicts(options, category, plan)
              case Failure(Unidentified(c)) => c == category && Categorized(options, category).value.id.None?
              case Failure(error) => error == Conflict && Conflicts(options, category, plan)
  {
    var option := Categorized(options, category);
    if category !in plan.categories || option.None? {
      return Success(plan);
    }
    if option.value.id.None? {
      return Failure(Unidentified(category));
    }
    var id, value := option.value.id.value, plan.categories[category];
    assert forall other :: ResolvesTo(options, category, other) <==> other == id;
    if id in plan.selections && plan.selections[id] != value {
      return Failure(Conflict);
    }
    return Success(Resolved(plan, category, id, look));
  }

  lemma RemoveShrinks(m: map<string, string>, key: string)
    requires key in m
    ensures |m - {key}| == |m| - 1
  {
    assert (m - {key}).Keys == m.Keys - {key};
    assert |m| == |m.Keys| && |m - {key}| == |(m - {key}).Keys|;
  }

  /** How much is left to do: every call takes one off, and resolving never adds. */
  function Work(plan: Plan): nat { |plan.pending| + |plan.categories| }

  lemma ResolvedWork(plan: Plan, category: string, id: string, look: nat)
    requires category in plan.categories
    ensures Work(Resolved(plan, category, id, look)) <= Work(plan)
  {
    RemoveShrinks(plan.categories, category);
    var next := Resolved(plan, category, id, look).pending;
    assert next.Keys == plan.pending.Keys + {id};
    assert |next| == |next.Keys| && |plan.pending| == |plan.pending.Keys|;
  }

  /** Options are sent by rank, and by id within a rank. */
  predicate Before(options: seq<ConfigOption>, a: string, b: string) {
    Rank(options, a) < Rank(options, b) || (Rank(options, a) == Rank(options, b) && CompareText(a, b) == Less)
  }

  lemma BeforeOrder(options: seq<ConfigOption>, a: string, b: string, c: string)
    ensures !Before(options, a, a)
    ensures Before(options, a, b) && Before(options, b, c) ==> Before(options, a, c)
    ensures a != b ==> Before(options, a, b) || Before(options, b, a)
  {
    TextOrder(a, a, a);
    TextOrder(a, b, c);
    TextOrder(a, c, b);
    TextOrder(b, c, a);
  }

  /** The selection to send next: of those the peer accepts now, the one before all others. */
  method Pick(options: seq<ConfigOption>, pending: map<string, string>) returns (choice: Option<string>)
    ensures choice.Some? ==> choice.value in pending && Accepts(options, choice.value, pending[choice.value])
    ensures choice.Some? ==> forall id :: id in pending && Accepts(options, id, pending[id]) && id != choice.value ==>
                                            Before(options, choice.value, id)
    ensures choice.None? ==> forall id :: id in pending ==> !Accepts(options, id, pending[id])
  {
    var left := set id | id in pending && Accepts(options, id, pending[id]);
    ghost var accepted := left;
    choice := None;
    while left != {}
      invariant left <= accepted && (choice.None? <==> left == accepted)
      invariant choice.Some? ==> choice.value in accepted - left
      invariant choice.Some? ==> forall id :: id in accepted - left && id != choice.value ==>
          Before(options, choice.value, id)
      decreases left
    {
      var id :| id in left;
      left := left - {id};
      if choice.Some? {
        BeforeFirst(options, id, choice.value);
      }
      if choice.None? || Before(options, id, choice.value) {
        choice := Some(id);
      }
    }
    assert forall id :: id in pending && Accepts(options, id, pending[id]) ==> id in accepted;
  }

  lemma BeforeFirst(options: seq<ConfigOption>, id: string, best: string)
    ensures id != best ==> Before(options, id, best) || Before(options, best, id)
    ensures forall c :: Before(options, id, best) && Before(options, best, c) ==> Before(options, id, c)
  {
    BeforeOrder(options, id, best, id);
    forall c | Before(options, id, best) && Before(options, best, c) ensures Before(options, id, c) {
      BeforeOrder(options, id, best, c);
    }
  }

  // ---------------------------------------------------------------- the whole selection

  /** The looks that resolve categories alternate with those that pick a selection, after the very first one. */
  predicate Resolves(look: nat) { look % 2 == 1 }

  /** No resolving look before this one showed an option of the category. */
  ghost predicate Unshown(read: nat -> Configuration, looks: nat, category: string) {
    forall k: nat :: k < looks && Resolves(k) ==> Categorized(read(k).options, category).None?
  }

  /** The first resolving look that showed an option of the category is the one it was resolved by. */
  ghost predicate ByFirst(read: nat -> Configuration, looks: nat, category: string, r: Resolution) {
    r.look < looks && Resolves(r.look) && Unshown(read, r.look, category)
        && ResolvesTo(read(r.look).options, category, r.id)
  }

  /** `category` was resolved, and what it was resolved to is selected with the wanted value. */
  ghost predicate Settled(read: nat -> Configuration, looks: nat, plan: Plan, category: string, value: string) {
    && category in plan.resolved && ByFirst(read, looks, category, plan.resolved[category])
    && plan.resolved[category].id in plan.selections && plan.selections[plan.resolved[category].id] == value
  }

  ghost predicate PlanOk(read: nat -> Configuration, looks: nat, plan: Plan, profile: Profile,
                         wanted: map<string, string>)
  {
    && Submap(profile.options, plan.selections)
    && Submap(plan.pending, plan.selections)
    && Submap(plan.categories, wanted)
    && forall c :: c in wanted && c !in plan.categories ==> Settled(read, looks, plan, c, wanted[c])
  }

  ghost predicate AllUnshown(read: nat -> Configuration, looks: nat, plan: Plan) {
    forall c :: c in plan.categories ==> Unshown(read, looks, c)
  }

  lemma ResolvedOk(read: nat -> Configuration, look: nat, plan: Plan, profile: Profile, wanted: map<string, string>,
                   category: string, id: string)
    requires PlanOk(read, look + 1, plan, profile, wanted) && category in plan.categories
    requires id in plan.selections ==> plan.selections[id] == plan.categories[category]
    requires ByFirst(read, look + 1, category, Resolution(id, look))
    ensures PlanOk(read, look + 1, Resolved(plan, category, id, look), profile, wanted)
  {
    var next := Resolved(plan, category, id, look);
    forall c | c in wanted && c !in next.categories ensures Settled(read, look + 1, next, c, wanted[c]) {
      if c != category {
        assert Settled(read, look + 1, plan, c, wanted[c]);
      }
    }
  }

  /**
   One look that resolves every wanted category to the `target` option, which `goal` selects with the wanted value.
   */
  ghost predicate Agrees(options: seq<ConfigOption>, wanted: map<string, string>, goal: map<string, string>,
                         target: map<string, string>)
  {
    forall c :: c in wanted ==>
      c in target && target[c] in goal && goal[target[c]] == wanted[c] && ResolvesTo(options, c, target[c])
  }

  /**
   A peer that always advertises the whole `goal`, and each category as the same option of it, and answers every call.
   */
  ghost predicate Cooperative(profile: Profile, wanted: map<string, string>, goal: map<string, string>,
                              target: map<string, string>, read: nat -> Configuration, answers: nat -> bool)
  {
    && Submap(profile.options, goal)
    && (forall k: nat :: answers(k))
    && (forall k: nat :: Agrees(read(k).options, wanted, goal, target))
    && (forall k: nat :: AcceptsAll(read(k).options, goal))
  }

  ghost predicate AcceptsAll(options: seq<ConfigOption>, goal: map<string, string>) {
    forall id :: id in goal ==> Accepts(options, id, goal[id])
  }

  /** What no resolving look before this one showed; nor this one, except for the categories it has yet to resolve. */
  ghost predicate UnshownBut(read: nat -> Configuration, look: nat, plan: Plan, rest: set<string>) {
    forall c :: c in plan.categories ==>
      Unshown(read, look, c) && (c in rest || Categorized(read(look).options, c).None?)
  }

  /** What one look makes of a plan, when it resolves one of its categories to the option `id`. */
  lemma LookResolved(read: nat -> Configuration, look: nat, plan: Plan, category: string, id: string,
                     profile: Profile, wanted: map<string, string>, goal: map<string, string>,
                     target: map<string, string>)
    requires PlanOk(read, look + 1, plan, profile, wanted) && Resolves(look)
    requires category in plan.categories && Unshown(read, look, category)
        && ResolvesTo(read(look).options, category, id)
    requires id in plan.selections ==> plan.selections[id] == plan.categories[category]
    ensures var next := Resolved(plan, category, id, look);
      && PlanOk(read, look + 1, next, profile, wanted) && Work(next) <= Work(plan)
      && (Submap(plan.selections, goal) && Agrees(read(look).options, wanted, goal, target) ==>
            Submap(next.selections, goal))
  {
    ResolvedOk(read, look, plan, profile, wanted, category, id);
    ResolvedWork(plan, category, id, look);
  }

  /**
   After one category is dealt with, the ones left were shown by no earlier look, nor by this one unless in `rest`.
   */
  lemma UnshownStill(read: nat -> Configuration, look: nat, plan: Plan, next: Plan, category: string, rest: set<string>)
    requires UnshownBut(read, look, plan, rest) && next.categories.Keys <= plan.categories.Keys
    requires category in next.categories ==> Categorized(read(look).options, category).None?
    ensures UnshownBut(read, look, next, rest - {category})
  {
  }

  method ResolveLook(read: nat -> Configuration, look: nat, plan: Plan, category: string, ghost rest: set<string>,
                     ghost profile: Profile, ghost wanted: map<string, string>,
                     ghost goal: map<string, string>, ghost target: map<string, string>)
    returns (r: Result<Plan, SelectionError>)
    requires PlanOk(read, look + 1, plan, profile, wanted) && Resolves(look)
    requires UnshownBut(read, look, plan, rest) && (category in plan.categories ==> category in rest)
    ensures r.Success? ==> PlanOk(read, look + 1, r.value, profile, wanted) && Work(r.value) <= Work(plan)
    ensures r.Success? ==> r.value.categories.Keys <= plan.categories.Keys
    ensures r.Success? ==> UnshownBut(read, look, r.value, rest - {category})
    ensures r.Success? && r.value.pending == map[] ==> r.value == plan
    ensures r.Success? ==> KeepsPending(plan, r.value)
    ensures r.Failure? ==> r.error == Conflict || r.error == Unidentified(category)
    ensures Submap(plan.selections, goal) && Agrees(read(look).options, wanted, goal, target) ==>
              r.Success? && Submap(r.value.selections, goal) && category !in r.value.categories
  {
    r := ResolveOne(read(look).options, category, plan, look);
    if r.Success? && category in plan.categories && Categorized(read(look).options, category).Some? {
      ghost var id :| ResolvesTo(read(look).options, category, id) && r.value == Resolved(plan, category, id, look);
      LookResolved(read, look, plan, category, id, profile, wanted, goal, target);
    }
    if r.Success? {
      UnshownStill(read, look, plan, r.value, category, rest);
    }
  }

  /** One look that shows every selection as current. */
  ghost predicate Applied(options: seq<ConfigOption>, selections: map<string, string>) {
    forall id :: id in selections ==> IsCurrent(options, id, selections[id])
  }

  /**
   What success means at the last look: everything selected is current, and selected are every configured option and
   the option that each category was resolved to.
   */
  ghost predicate Effective(read: nat -> Configuration, looks: nat, profile: Profile, wanted: map<string, string>,
                            plan: Plan)
  {
    && looks > 0
    && Applied(read(looks - 1).options, plan.selections)
    && Submap(profile.options, plan.selections)
    && forall c :: c in wanted ==> Settled(read, looks, plan, c, wanted[c])
  }

  ghost predicate ModeEffective(read: nat -> Configuration, looks: nat, profile: Profile) {
    looks > 0 && (read(looks - 1).options == [] && profile.mode.Some? ==> read(looks - 1).currentMode == profile.mode)
  }

  /** Each call sent a selection that the peer accepted at an earlier look, or the legacy mode it advertised. */
  ghost predicate Justified(call: Call, read: nat -> Configuration, looks: nat) {
    match call
    case SetOption(id, value) => exists k: nat :: k < looks && Accepts(read(k).options, id, value)
    case SetMode(mode) => exists k: nat :: k < looks && Some(mode) in read(k).modes
  }

  /** `next` has everything selected pending that was not selected and sent before. */
  ghost predicate KeepsPending(plan: Plan, next: Plan) {
    && Submap(plan.selections, next.selections)
    && forall id :: id in next.selections ==>
         id in next.pending || (id in plan.selections && id !in plan.pending)
  }

  /** Every selection is still to be sent, or was sent with its value. */
  ghost predicate SentOrPending(plan: Plan, calls: seq<Call>) {
    forall id :: id in plan.selections ==> id in plan.pending || SetOption(id, plan.selections[id]) in calls
  }

  /** Between the two plans `call` was sent, and what it sent need not be sent again. */
  ghost predicate Sends(plan: Plan, next: Plan, call: Call) {
    && Submap(plan.selections, next.selections)
    && forall id :: id in next.selections ==>
         || id in next.pending || (id in plan.selections && id !in plan.pending)
         || call == SetOption(id, next.selections[id])
  }

  lemma SendsPicked(plan: Plan, next: Plan, id: string)
    requires KeepsPending(plan, next) && Submap(next.pending, next.selections) && id in next.pending
    ensures Sends(plan, next.(pending := next.pending - {id}), SetOption(id, next.pending[id]))
  {
  }

  lemma StillSent(plan: Plan, next: Plan, call: Call, calls: seq<Call>)
    requires SentOrPending(plan, calls) && Sends(plan, next, call)
    ensures SentOrPending(next, calls + [call])
  {
    forall id | id in next.selections && id !in next.pending
      ensures SetOption(id, next.selections[id]) in calls + [call]
    {
      if call == SetOption(id, next.selections[id]) {
        assert (calls + [call])[|calls|] == call;
      } else {
        assert next.selections[id] == plan.selections[id];
      }
    }
  }

  lemma MoreLooks(read: nat -> Configuration, looks: nat, more: nat, plan: Plan, profile: Profile,
                  wanted: map<string, string>)
    requires PlanOk(read, looks, plan, profile, wanted) && looks <= more
    ensures PlanOk(read, more, plan, profile, wanted)
  {
    forall c | c in wanted && c !in plan.categories ensures Settled(read, more, plan, c, wanted[c]) {
      assert Settled(read, looks, plan, c, wanted[c]);
    }
  }

  /** Both categories under one look, mode before model. */
  method ResolveAll(read: nat -> Configuration, look: nat, plan: Plan,
                    ghost profile: Profile, ghost wanted: map<string, string>,
                    ghost goal: map<string, string>, ghost target: map<string, string>)
    returns (r: Result<Plan, SelectionError>)
    requires PlanOk(read, look, plan, profile, wanted) && AllUnshown(read, look, plan) && Resolves(look)
    requires wanted.Keys <= {"mode", "model"}
    ensures r.Success? ==> PlanOk(read, look + 1, r.value, profile, wanted) && Work(r.value) <= Work(plan)
    ensures r.Success? ==> AllUnshown(read, look + 2, r.value)
    ensures r.Success? && r.value.pending == map[] ==> r.value == plan
    ensures r.Success? ==> KeepsPending(plan, r.value)
    ensures r.Failure? ==> r.error == Conflict || r.error.Unidentified?
    ensures Submap(plan.selections, goal) && Agrees(read(look).options, wanted, goal, target) ==>
              r.Success? && Submap(r.value.selections, goal) && r.value.categories == map[]
  {
    MoreLooks(read, look, look + 1, plan, profile, wanted);
    ghost var rest := {"mode", "model"};
    r := ResolveLook(read, look, plan, "mode", rest, profile, wanted, goal, target);
    if r.Success? {
      r := ResolveLook(read, look, r.value, "model", rest - {"mode"}, profile, wanted, goal, target);
      if r.Success? {
        StillUnshown(read, look, r.value);
      }
    }
  }

  lemma StillUnshown(read: nat -> Configuration, look: nat, plan: Plan)
    requires UnshownBut(read, look, plan, {}) && Resolves(look)
    ensures AllUnshown(read, look + 2, plan)
  {
    forall c | c in plan.categories ensures Unshown(read, look + 2, c) {
      assert Unshown(read, look, c);
    }
  }

  lemma SentPlan(read: nat -> Configuration, looks: nat, plan: Plan, profile: Profile, wanted: map<string, string>,
                 id: string)
    requires PlanOk(read, looks, plan, profile, wanted) && id in plan.pending
    ensures PlanOk(read, looks, plan.(pending := plan.pending - {id}), profile, wanted)
    ensures Work(plan.(pending := plan.pending - {id})) == Work(plan) - 1
  {
    RemoveShrinks(plan.pending, id);
  }

  ghost predicate AllJustified(calls: seq<Call>, read: nat -> Configuration, looks: nat) {
    forall k :: 0 <= k < |calls| ==> Justified(calls[k], read, looks)
  }

  lemma StillJustified(calls: seq<Call>, read: nat -> Configuration, looks: nat, more: nat)
    requires looks <= more && AllJustified(calls, read, looks)
    ensures AllJustified(calls, read, more)
  {
    forall k | 0 <= k < |calls| ensures Justified(calls[k], read, more) {
      assert Justified(calls[k], read, looks);
    }
  }

  lemma JustifiedAppend(calls: seq<Call>, call: Call, read: nat -> Configuration, looks: nat)
    requires AllJustified(calls, read, looks) && Justified(call, read, looks)
    ensures AllJustified(calls + [call], read, looks)
  {
  }

  /** A peer that accepts nothing of what is pending is not cooperative. */
  lemma PendingIsAccepted(profile: Profile, wanted: map<string, string>, goal: map<string, string>,
                          target: map<string, string>,
                          read: nat -> Configuration, answers: nat -> bool, k: nat, plan: Plan)
    requires Submap(plan.pending, plan.selections)
    requires forall id :: id in plan.pending ==> !Accepts(read(k).options, id, plan.pending[id])
    requires Cooperative(profile, wanted, goal, target, read, answers) ==>
        Submap(plan.selections, goal) && plan.pending != map[]
    ensures !Cooperative(profile, wanted, goal, target, read, answers)
  {
    assert Cooperative(profile, wanted, goal, target, read, answers) ==> AcceptsAll(read(k).options, goal);
  }

  /** One round: resolve what can be resolved, then send one accepted selection. */
  method SendOne(profile: Profile, wanted: map<string, string>, read: nat -> Configuration, answers: nat -> bool,
                 looks: nat, plan: Plan, answered: nat, ghost goal: map<string, string>,
                 ghost target: map<string, string>)
    returns (r: Result<Plan, SelectionError>, call: Option<Call>)
    requires wanted.Keys <= {"mode", "model"} && PlanOk(read, looks, plan, profile, wanted)
    requires AllUnshown(read, looks, plan) && Resolves(looks)
    requires plan.pending != map[] || plan.categories != map[]
    ensures call.Some? ==> call.value.SetOption? && Justified(call.value, read, looks + 2)
    ensures r.Success? ==> call.Some? && PlanOk(read, looks + 2, r.value, profile, wanted) && Work(r.value) < Work(plan)
    ensures r.Success? ==> AllUnshown(read, looks + 2, r.value)
    ensures r.Success? ==> Sends(plan, r.value, call.value)
    ensures r.Failure? && call.Some? ==> r.error == CallFailed && !answers(answered)
    ensures r.Failure? && call.None? ==> r.error == Conflict || r.error.Unidentified? || r.error == NotAdvertised
    ensures call.Some? ==> 1 <= Work(plan)
    ensures Submap(plan.selections, goal) && Cooperative(profile, wanted, goal, target, read, answers) ==>
              r.Success? && Submap(r.value.selections, goal)
  {
    var resolved := ResolveAll(read, looks, plan, profile, wanted, goal, target);
    if resolved.Failure? {
      return Failure(resolved.error), None;
    }
    var next := resolved.value;
    MoreLooks(read, looks + 1, looks + 2, next, profile, wanted);
    var choice := Pick(read(looks + 1).options, next.pending);
    if choice.None? {
      if Submap(plan.selections, goal) {
        PendingIsAccepted(profile, wanted, goal, target, read, answers, looks + 1, next);
      }
      return Failure(NotAdvertised), None;
    }
    var id := choice.value;
    SentPlan(read, looks + 2, next, profile, wanted, id);
    SendsPicked(plan, next, id);
    call := Some(SetOption(id, next.pending[id]));
    if !answers(answered) {
      return Failure(CallFailed), call;
    }
    return Success(next.(pending := next.pending - {id})), call;
  }

  ghost predicate CallsOk(plan: Plan, calls: seq<Call>, read: nat -> Configuration, looks: nat) {
    AllJustified(calls, read, looks) && SentOrPending(plan, calls)
  }

  lemma CallMade(plan: Plan, sent: Result<Plan, SelectionError>, call: Option<Call>, calls: seq<Call>,
                 read: nat -> Configuration, looks: nat)
    requires CallsOk(plan, calls, read, looks) && (call.Some? ==> Justified(call.value, read, looks + 2))
    requires sent.Success? ==> call.Some? && Sends(plan, sent.value, call.value)
    ensures var after := calls + (if call.Some? then [call.value] else []);
      AllJustified(after, read, looks + 2) && (sent.Success? ==> CallsOk(sent.value, after, read, looks + 2))
  {
    StillJustified(calls, read, looks, looks + 2);
    if sent.Success? {
      StillSent(plan, sent.value, call.value, calls);
    }
    if call.Some? {
      JustifiedAppend(calls, call.value, read, looks + 2);
    } else {
      assert calls + [] == calls;
    }
  }

  /** A round that notes its call. */
  method SendNext(profile: Profile, wanted: map<string, string>, read: nat -> Configuration, answers: nat -> bool,
                  looks: nat, plan: Plan, made: seq<Call>, ghost goal: map<string, string>,
                  ghost target: map<string, string>)
    returns (r: Result<Plan, SelectionError>, calls: seq<Call>)
    requires wanted.Keys <= {"mode", "model"} && PlanOk(read, looks, plan, profile, wanted)
    requires AllUnshown(read, looks, plan) && Resolves(looks) && CallsOk(plan, made, read, looks)
    requires plan.pending != map[] || plan.categories != map[]
    ensures AllJustified(calls, read, looks + 2)
        && |calls| + (if r.Success? then Work(r.value) else 0) <= |made| + Work(plan)
    ensures r.Success? ==> PlanOk(read, looks + 2, r.value, profile, wanted) && AllUnshown(read, looks + 2, r.value)
    ensures r.Success? ==> CallsOk(r.value, calls, read, looks + 2) && Work(r.value) < Work(plan)
    ensures r.Failure? ==>
        r.error == Conflict || r.error.Unidentified? || r.error == NotAdvertised || r.error == CallFailed
    ensures r.Failure? && r.error == CallFailed ==> |calls| > 0 && !answers(|calls| - 1)
    ensures Submap(plan.selections, goal) && Cooperative(profile, wanted, goal, target, read, answers) ==>
              r.Success? && Submap(r.value.selections, goal)
  {
    var call;
    r, call := SendOne(profile, wanted, read, answers, looks, plan, |made|, goal, target);
    CallMade(plan, r, call, made, read, looks);
    calls := made + (if call.Some? then [call.value] else []);
  }

  /** Before the first round nothing is sent, and everything configured is still to be. */
  lemma PlanStarts(profile: Profile, wanted: map<string, string>, read: nat -> Configuration)
    ensures var plan := Plan(profile.options, profile.options, wanted, map[]);
      && PlanOk(read, 1, plan, profile, wanted) && AllUnshown(read, 1, plan) && CallsOk(plan, [], read, 1)
      && Work(plan) == |profile.options| + |wanted|
  {
  }

  lemma PlanEnds(plan: Plan, calls: seq<Call>, read: nat -> Configuration, looks: nat)
    requires CallsOk(plan, calls, read, looks) && plan.pending == map[]
    ensures AllSent(plan, calls)
  {
  }

  /** The loop, until nothing is left to resolve or to send. */
  method SendAll(profile: Profile, wanted: map<string, string>, read: nat -> Configuration, answers: nat -> bool,
                 ghost goal: map<string, string>, ghost target: map<string, string>)
    returns (r: Result<Plan, SelectionError>, calls: seq<Call>, looks: nat)
    requires wanted.Keys <= {"mode", "model"}
    ensures |calls| <= |profile.options| + |wanted|
    ensures AllJustified(calls, read, looks)
    ensures r.Success? ==> looks >= 1 && r.value.categories == map[] && PlanOk(read, looks, r.value, profile, wanted)
    ensures r.Failure? ==>
        r.error == Conflict || r.error.Unidentified? || r.error == NotAdvertised || r.error == CallFailed
    ensures r.Failure? && r.error == CallFailed ==> |calls| > 0 && !answers(|calls| - 1)
    ensures r.Success? ==> AllSent(r.value, calls)
    ensures Cooperative(profile, wanted, goal, target, read, answers) ==> r.Success? && Submap(r.value.selections, goal)
  {
    var plan := Plan(profile.options, profile.options, wanted, map[]);
    calls, looks := [], 1;
    PlanStarts(profile, wanted, read);
    while plan.pending != map[] || plan.categories != map[]
      invariant PlanOk(read, looks, plan, profile, wanted) && AllUnshown(read, looks, plan)
      invariant looks >= 1 && Resolves(looks)
      invariant |calls| + Work(plan) <= |profile.options| + |wanted|
      invariant CallsOk(plan, calls, read, looks)
      invariant Cooperative(profile, wanted, goal, target, read, answers) ==> Submap(plan.selections, goal)
      decreases Work(plan)
    {
      var sent;
      sent, calls := SendNext(profile, wanted, read, answers, looks, plan, calls, goal, target);
      looks := looks + 2;
      if sent.Failure? {
        return Failure(sent.error), calls, looks;
      }
      plan := sent.value;
    }
    PlanEnds(plan, calls, read, looks);
    return Success(plan), calls, looks;
  }

  /**
   The whole operation, against any peer: how many calls it makes, that each is justified by what the peer
   advertised, what success means, and that a cooperative peer can only fail by not showing the result. A success
   returns what was selected and what each category was resolved to.
   */
  method Apply(profile: Profile, read: nat -> Configuration, answers: nat -> bool,
               ghost goal: map<string, string>, ghost target: map<string, string>)
    returns (r: Result<Plan, SelectionError>, calls: seq<Call>, looks: nat)
    ensures |calls| <= |profile.options| + 2
    ensures AllJustified(calls, read, looks)
    ensures r.Success? ==> Effective(read, looks, profile, Wanted(profile, read(0).options == []), r.value)
    ensures r.Success? && profile.model.Some? ==> Settled(read, looks, r.value, "model", profile.model.value)
    ensures r.Success? && profile.mode.Some? && read(0).options != [] ==>
              Settled(read, looks, r.value, "mode", profile.mode.value)
    ensures r.Success? ==> AllSent(r.value, calls) && ModeEffective(read, looks, profile)
    ensures r.Success? && read(0).options == [] && profile.mode.Some? ==>
              calls != [] && calls[|calls| - 1] == SetMode(profile.mode.value)
    ensures Cooperative(profile, Wanted(profile, false), goal, target, read, answers) && read(0).options != [] ==>
              OnlyUnshown(r, read, looks, profile, goal)
  {
    var legacy := read(0).options == [];
    WantedSize(profile, legacy);
    WantedExactly(profile, legacy);
    r, calls, looks := Select(profile, legacy, Wanted(profile, legacy), read, answers, goal, target);
  }

  /** Any failure is that the last look does not show what was selected. */
  ghost predicate OnlyUnshown(r: Result<Plan, SelectionError>, read: nat -> Configuration, looks: nat, profile: Profile,
                              goal: map<string, string>)
  {
    looks > 0 && match r
      case Success(_) => true
      case Failure(ModeNotApplied) => !ModeEffective(read, looks, profile)
      case Failure(error) => error == NotApplied && !Applied(read(looks - 1).options, goal)
  }

  /** Every selection was sent, with its value. */
  ghost predicate AllSent(plan: Plan, calls: seq<Call>) {
    forall id :: id in plan.selections ==> SetOption(id, plan.selections[id]) in calls
  }

  lemma SentStays(plan: Plan, calls: seq<Call>, mode: Option<string>)
    requires AllSent(plan, calls)
    ensures mode.Some? ==> AllSent(plan, calls + [SetMode(mode.value)])
  {
  }

  method Select(profile: Profile, legacy: bool, wanted: map<string, string>, read: nat -> Configuration,
                answers: nat -> bool, ghost goal: map<string, string>, ghost target: map<string, string>)
    returns (r: Result<Plan, SelectionError>, calls: seq<Call>, looks: nat)
    requires wanted.Keys <= {"mode", "model"}
    ensures |calls| <= |profile.options| + |wanted| + (if legacy then 1 else 0)
    ensures AllJustified(calls, read, looks)
    ensures r.Success? ==> Effective(read, looks, profile, wanted, r.value) && ModeEffective(read, looks, profile)
    ensures r.Success? ==> AllSent(r.value, calls)
    ensures r.Success? && legacy && profile.mode.Some? ==>
              calls != [] && calls[|calls| - 1] == SetMode(profile.mode.value)
    ensures Cooperative(profile, wanted, goal, target, read, answers) && !legacy ==>
              OnlyUnshown(r, read, looks, profile, goal)
  {
    var sent;
    sent, calls, looks := SendAll(profile, wanted, read, answers, goal, target);
    if sent.Failure? {
      return Failure(sent.error), calls, looks;
    }
    SentStays(sent.value, calls, profile.mode);
    r, calls, looks := Settle(profile, legacy, read, answers, looks, calls, sent.value, wanted, goal);
  }

  /** After the loop: the legacy mode if there are no options, then the last look. */
  method Settle(profile: Profile, legacy: bool, read: nat -> Configuration, answers: nat -> bool, look: nat,
                sent: seq<Call>, plan: Plan, ghost wanted: map<string, string>, ghost goal: map<string, string>)
    returns (r: Result<Plan, SelectionError>, calls: seq<Call>, looks: nat)
    requires look >= 1 && plan.categories == map[] && PlanOk(read, look, plan, profile, wanted)
    requires AllJustified(sent, read, look)
    ensures looks >= 1 && AllJustified(calls, read, looks)
    ensures r.Success? ==> r.value == plan
    ensures calls == sent || (legacy && profile.mode.Some? && calls == sent + [SetMode(profile.mode.value)])
    ensures r.Success? ==> Effective(read, looks, profile, wanted, r.value) && ModeEffective(read, looks, profile)
    ensures r.Success? && legacy && profile.mode.Some? ==> calls != sent
    ensures r.Failure? && r.error == CallFailed ==> calls != sent && !answers(|sent|)
    ensures (!legacy || profile.mode.None?) && Submap(plan.selections, goal) ==>
              OnlyUnshown(r, read, looks, profile, goal)
  {
    calls, looks := sent, look;
    if legacy && profile.mode.Some? {
      var applied: Result<Unit, SelectionError>;
      applied, calls := SetLegacyMode(profile.mode.value, read, answers, looks, calls);
      looks := looks + 1;
      if applied.Failure? {
        return Failure(applied.error), calls, looks;
      }
      MoreLooks(read, look, looks, plan, profile, wanted);
    }
    r := Confirm(profile, read, looks, plan, wanted, goal);
    StillJustified(calls, read, looks, looks + 1);
    looks := looks + 1;
  }

  /** Peers without options take the mode through its own call, if they advertise it. */
  method SetLegacyMode(mode: string, read: nat -> Configuration, answers: nat -> bool, look: nat, calls: seq<Call>)
    returns (r: Result<Unit, SelectionError>, made: seq<Call>)
    requires AllJustified(calls, read, look)
    ensures AllJustified(made, read, look + 1)
    ensures if Some(mode) in read(look).modes
            then made == calls + [SetMode(mode)] && r == if answers(|calls|) then Success(Unit) else Failure(CallFailed)
            else made == calls && r == Failure(ModeNotAdvertised)
  {
    StillJustified(calls, read, look, look + 1);
    if Some(mode) !in read(look).modes {
      return Failure(ModeNotAdvertised), calls;
    }
    JustifiedAppend(calls, SetMode(mode), read, look + 1);
    made := calls + [SetMode(mode)];
    r := if answers(|calls|) then Success(Unit) else Failure(CallFailed);
  }

  /** The last look: everything selected must be shown as current. */
  method Confirm(profile: Profile, read: nat -> Configuration, look: nat, plan: Plan,
                 ghost wanted: map<string, string>, ghost goal: map<string, string>)
    returns (r: Result<Plan, SelectionError>)
    requires look >= 1 && plan.categories == map[] && PlanOk(read, look, plan, profile, wanted)
    ensures r.Success? ==> r.value == plan && Effective(read, look + 1, profile, wanted, plan)
    ensures r.Success? <==> ModeEffective(read, look + 1, profile) && Applied(read(look).options, plan.selections)
    ensures r.Failure? ==> r.error == if ModeEffective(read, look + 1, profile) then NotApplied else ModeNotApplied
    ensures r.Failure? && r.error == NotApplied && Submap(plan.selections, goal) ==> !Applied(read(look).options, goal)
  {
    var final := read(look);
    if final.options == [] && profile.mode.Some? && final.currentMode != profile.mode {
      return Failure(ModeNotApplied);
    }
    if id :| id in plan.selections && !IsCurrent(final.options, id, plan.selections[id]) {
      return Failure(NotApplied);
    }
    MoreLooks(read, look, look + 1, plan, profile, wanted);
    return Success(plan);
  }
}
