/** Choosing options on the item sheet, and the server pricing what was chosen. */
module Pricing {
  import opened Common
  import Orders

  datatype MenuOption = MenuOption(id: nat, name: string, delta: int)
  datatype Group = Group(id: nat, minSelect: nat, maxSelect: nat, options: seq<MenuOption>)
  datatype Item = Item(id: nat, name: string, price: int, available: bool, groups: seq<Group>)

  /** Ids are primary keys, and the menu editor requires a maximum of at least one. */
  predicate WellFormed(item: Item) {
    && DistinctIds(AllIds(item.groups))
    && (forall i, j | 0 <= i < j < |item.groups| :: item.groups[i].id != item.groups[j].id)
    && (forall g <- item.groups :: g.maxSelect >= 1)
  }

  predicate DistinctIds(ids: seq<nat>) {
    forall i, j | 0 <= i < j < |ids| :: ids[i] != ids[j]
  }

  function IdsOf(options: seq<MenuOption>): (ids: seq<nat>)
    ensures |ids| == |options| && forall i | 0 <= i < |ids| :: ids[i] == options[i].id
  {
    seq(|options|, i requires 0 <= i < |options| => options[i].id)
  }

  function AllOptions(groups: seq<Group>): seq<MenuOption> {
    if groups == [] then [] else AllOptions(groups[..|groups| - 1]) + groups[|groups| - 1].options
  }

  function AllIds(groups: seq<Group>): seq<nat> {
    IdsOf(AllOptions(groups))
  }

  // ----- the sheet ------------------------------------------------------------------------

  function Without(ids: seq<nat>, drop: seq<nat>): (kept: seq<nat>)
    ensures forall x :: x in kept <==> x in ids && x !in drop
    ensures DistinctIds(ids) ==> DistinctIds(kept)
  {
    if ids == [] then []
    else
      var last := ids[|ids| - 1];
      assert ids == ids[..|ids| - 1] + [last];
      Without(ids[..|ids| - 1], drop) + if last in drop then [] else [last]
  }

  /** How many of the ids are among `among`. */
  function CountIn(ids: seq<nat>, among: seq<nat>): nat {
    if ids == [] then 0
    else CountIn(ids[..|ids| - 1], among) + if ids[|ids| - 1] in among then 1 else 0
  }

  function Toggle(ids: seq<nat>, g: Group, opt: MenuOption): seq<nat> {
    var inGroup := IdsOf(g.options);
    if g.maxSelect == 1 then
      var cleared := Without(ids, inGroup);
      if opt.id in ids && g.minSelect == 0 then cleared else cleared + [opt.id]
    else if opt.id in ids then Without(ids, [opt.id])
    else if CountIn(ids, inGroup) >= g.maxSelect then ids
    else ids + [opt.id]
  }

  /** The number of a group's options that are chosen. */
  function Chosen(g: Group, ids: seq<nat>): nat {
    CountIn(IdsOf(g.options), ids)
  }

  predicate Valid(item: Item, ids: seq<nat>) {
    forall g <- item.groups :: g.minSelect <= Chosen(g, ids) <= g.maxSelect
  }

  function DeltaSum(options: seq<MenuOption>, ids: seq<nat>): int {
    if options == [] then 0
    else
      var o := options[|options| - 1];
      DeltaSum(options[..|options| - 1], ids) + if o.id in ids then o.delta else 0
  }

  /** The unit price the sheet shows. */
  function Unit(item: Item, ids: seq<nat>): int {
    item.price + DeltaSum(AllOptions(item.groups), ids)
  }

  // ----- the server -----------------------------------------------------------------------

  const MAX_OPTIONS: nat := 20

  /** One line of a submitted order. */
  datatype CartLine = CartLine(itemId: nat, qty: nat, note: string, optionIds: seq<nat>)

  datatype Priced = Priced(itemId: nat, name: string, unitPrice: int, qty: nat, note: string, modifiers: seq<string>)

  datatype Refusal = ItemUnavailable(itemId: nat) | InvalidOrder | InvalidModifiers(groupId: nat)

  datatype Result<T> = Ok(value: T) | Err(error: Refusal)

  /** An option in the server's map, with the group it came from. */
  datatype Tagged = Tagged(opt: MenuOption, groupId: nat)

  function AllTagged(groups: seq<Group>): (tags: seq<Tagged>)
    ensures |tags| == |AllOptions(groups)|
    ensures forall i | 0 <= i < |tags| :: tags[i].opt == AllOptions(groups)[i]
  {
    if groups == [] then []
    else
      var g := groups[|groups| - 1];
      AllTagged(groups[..|groups| - 1]) +
      seq(|g.options|, i requires 0 <= i < |g.options| => Tagged(g.options[i], g.id))
  }

  /** The option map: a repeated id would be overwritten by the later option. */
  function FindOption(tags: seq<Tagged>, id: nat): (r: Option<Tagged>)
    ensures r.Some? ==> r.value in tags && r.value.opt.id == id
    ensures r.None? ==> forall t <- tags :: t.opt.id != id
  {
    if tags == [] then None
    else if tags[|tags| - 1].opt.id == id then Some(tags[|tags| - 1])
    else FindOption(tags[..|tags| - 1], id)
  }

  function Lookup(tags: seq<Tagged>, ids: seq<nat>): (chosen: seq<Tagged>)
    ensures |chosen| <= |ids|
    ensures |chosen| == |ids| <==> forall i | 0 <= i < |ids| :: FindOption(tags, ids[i]).Some?
    ensures |chosen| == |ids| ==> forall i | 0 <= i < |ids| :: FindOption(tags, ids[i]) == Some(chosen[i])
  {
    if ids == [] then []
    else
      var found := FindOption(tags, ids[|ids| - 1]);
      Lookup(tags, ids[..|ids| - 1]) + if found.Some? then [found.value] else []
  }

  function CountOptions(chosen: seq<Tagged>, groupId: nat): nat {
    if chosen == [] then 0
    else CountOptions(chosen[..|chosen| - 1], groupId) + if chosen[|chosen| - 1].groupId == groupId then 1 else 0
  }

  /** The first group whose chosen options are too few or too many. */
  function BadGroup(groups: seq<Group>, chosen: seq<Tagged>): Option<nat> {
    if groups == [] then None
    else
      var earlier := BadGroup(groups[..|groups| - 1], chosen);
      var g := groups[|groups| - 1];
      if earlier.Some? then earlier
      else if g.minSelect <= CountOptions(chosen, g.id) <= g.maxSelect then None else Some(g.id)
  }

  function Deltas(chosen: seq<Tagged>): int {
    if chosen == [] then 0 else Deltas(chosen[..|chosen| - 1]) + chosen[|chosen| - 1].opt.delta
  }

  function Names(chosen: seq<Tagged>): seq<string> {
    seq(|chosen|, i requires 0 <= i < |chosen| => chosen[i].opt.name)
  }

  function PriceLine(menu: map<nat, Item>, line: CartLine): Result<Priced> {
    if line.itemId !in menu || !menu[line.itemId].available then Err(ItemUnavailable(line.itemId))
    else
      var item := menu[line.itemId];
      var chosen := Lookup(AllTagged(item.groups), line.optionIds);
      if |chosen| != |line.optionIds| then Err(InvalidOrder)
      else
        var bad := BadGroup(item.groups, chosen);
        if bad.Some? then Err(InvalidModifiers(bad.value))
        else Ok(Priced(item.id, item.name, item.price + Deltas(chosen), line.qty, line.note, Names(chosen)))
  }

  const MAX_QTY: nat := 20
  const MAX_NOTE: nat := 200

  /** The request schema for one line. */
  predicate InSchema(line: CartLine) {
    1 <= line.qty <= MAX_QTY && |line.note| <= MAX_NOTE && |line.optionIds| <= MAX_OPTIONS
  }

  function Charge(menu: map<nat, Item>, line: CartLine): Result<Priced> {
    if InSchema(line) then PriceLine(menu, line) else Err(InvalidOrder)
  }

  // ----- two ways of adding up a selection ----------------------------------------------------

  /** Sum of weight over the elements of a that are among b. */
  function WeightIn(a: seq<nat>, b: seq<nat>, weight: nat -> int): int {
    if a == [] then 0
    else WeightIn(a[..|a| - 1], b, weight) + if a[|a| - 1] in b then weight(a[|a| - 1]) else 0
  }

  lemma {:induction false} OneMoreAmong(a: seq<nat>, b: seq<nat>, x: nat, weight: nat -> int)
    requires DistinctIds(a) && x !in b
    ensures WeightIn(a, b + [x], weight) == WeightIn(a, b, weight) + if x in a then weight(x) else 0
  {
    if a != [] {
      assert a == a[..|a| - 1] + [a[|a| - 1]];
      OneMoreAmong(a[..|a| - 1], b, x, weight);
    }
  }

  lemma {:induction false} NoneAmong(a: seq<nat>, weight: nat -> int)
    ensures WeightIn(a, [], weight) == 0
  {
    if a != [] { NoneAmong(a[..|a| - 1], weight); }
  }

  /** Weighing the common elements from either side gives the same sum. */
  lemma {:induction false} WeightSymmetric(a: seq<nat>, b: seq<nat>, weight: nat -> int)
    requires DistinctIds(a) && DistinctIds(b)
    ensures WeightIn(a, b, weight) == WeightIn(b, a, weight)
  {
    if a == [] {
      NoneAmong(b, weight);
    } else {
      var init, x := a[..|a| - 1], a[|a| - 1];
      assert a == init + [x];
      WeightSymmetric(init, b, weight);
      OneMoreAmong(b, init, x, weight);
    }
  }

  lemma {:induction false} CountIsWeight(a: seq<nat>, b: seq<nat>)
    ensures CountIn(a, b) == WeightIn(a, b, (x: nat) => 1)
  {
    if a != [] { CountIsWeight(a[..|a| - 1], b); }
  }

  lemma CountSymmetric(a: seq<nat>, b: seq<nat>)
    requires DistinctIds(a) && DistinctIds(b)
    ensures CountIn(a, b) == CountIn(b, a)
  {
    CountIsWeight(a, b);
    CountIsWeight(b, a);
    WeightSymmetric(a, b, (x: nat) => 1);
  }

  lemma {:induction false} CountAgree(a: seq<nat>, b: seq<nat>, c: seq<nat>)
    requires forall x <- a :: x in b <==> x in c
    ensures CountIn(a, b) == CountIn(a, c)
  {
    if a != [] {
      assert a == a[..|a| - 1] + [a[|a| - 1]];
      CountAgree(a[..|a| - 1], b, c);
    }
  }

  lemma {:induction false} CountFewer(a: seq<nat>, b: seq<nat>, c: seq<nat>)
    requires forall x <- a :: x in b ==> x in c
    ensures CountIn(a, b) <= CountIn(a, c)
  {
    if a != [] {
      assert a == a[..|a| - 1] + [a[|a| - 1]];
      CountFewer(a[..|a| - 1], b, c);
    }
  }

  lemma CountOneMore(a: seq<nat>, b: seq<nat>, x: nat)
    requires DistinctIds(a) && x !in b
    ensures CountIn(a, b + [x]) == CountIn(a, b) + if x in a then 1 else 0
  {
    CountIsWeight(a, b);
    CountIsWeight(a, b + [x]);
    OneMoreAmong(a, b, x, (y: nat) => 1);
  }

  // ----- groups do not share options -------------------------------------------------------------

  lemma IdsOfAppend(a: seq<MenuOption>, b: seq<MenuOption>)
    ensures IdsOf(a + b) == IdsOf(a) + IdsOf(b)
  {
  }

  predicate Disjoint(a: seq<nat>, b: seq<nat>) {
    forall x <- a :: x !in b
  }

  lemma DistinctParts(a: seq<nat>, b: seq<nat>)
    requires DistinctIds(a + b)
    ensures DistinctIds(a) && DistinctIds(b) && Disjoint(b, a)
  {
    assert forall k | 0 <= k < |a| :: (a + b)[k] == a[k];
    assert forall k | 0 <= k < |b| :: (a + b)[|a| + k] == b[k];
  }

  lemma LastGroup(groups: seq<Group>)
    requires groups != []
    ensures AllIds(groups) == AllIds(groups[..|groups| - 1]) + IdsOf(groups[|groups| - 1].options)
    ensures DistinctIds(AllIds(groups)) ==>
      && DistinctIds(AllIds(groups[..|groups| - 1])) && DistinctIds(IdsOf(groups[|groups| - 1].options))
      && Disjoint(IdsOf(groups[|groups| - 1].options), AllIds(groups[..|groups| - 1]))
  {
    var n := |groups| - 1;
    IdsOfAppend(AllOptions(groups[..n]), groups[n].options);
    if DistinctIds(AllIds(groups)) { DistinctParts(AllIds(groups[..n]), IdsOf(groups[n].options)); }
  }

  lemma {:induction false} GroupsDisjoint(groups: seq<Group>, i: nat, j: nat, x: nat)
    requires DistinctIds(AllIds(groups)) && i < |groups| && j < |groups|
    ensures DistinctIds(IdsOf(groups[i].options))
    ensures x in IdsOf(groups[i].options) ==> x in AllIds(groups)
    ensures i != j && x in IdsOf(groups[i].options) ==> x !in IdsOf(groups[j].options)
    decreases |groups|
  {
    var n := |groups| - 1;
    LastGroup(groups);
    if i < n { GroupsDisjoint(groups[..n], i, if j < n then j else i, x); }
    if j < n { GroupsDisjoint(groups[..n], j, j, x); }
  }

  // ----- what a tap does ----------------------------------------------------------------------

  /** x is the id of one of the group's options. */
  predicate OptionOf(g: Group, x: nat) {
    exists i | 0 <= i < |g.options| :: g.options[i].id == x
  }

  /** The group's options that are chosen. */
  function ChosenOf(g: Group, ids: seq<nat>): set<nat> {
    set x | x in ids && OptionOf(g, x)
  }

  lemma OptionIds(g: Group, x: nat)
    ensures x in IdsOf(g.options) <==> OptionOf(g, x)
  {
    if OptionOf(g, x) {
      var i :| 0 <= i < |g.options| && g.options[i].id == x;
      assert IdsOf(g.options)[i] == x;
    }
  }

  lemma LastIsNew(ids: seq<nat>)
    requires ids != [] && DistinctIds(ids)
    ensures DistinctIds(ids[..|ids| - 1]) && ids[|ids| - 1] !in ids[..|ids| - 1]
  {
  }

  function InBoth(a: seq<nat>, b: seq<nat>): set<nat> { set x | x in a && x in b }

  lemma BothOneMore(init: seq<nat>, x: nat, b: seq<nat>)
    requires x !in init
    ensures |InBoth(init + [x], b)| == |InBoth(init, b)| + if x in b then 1 else 0
  {
    assert InBoth(init + [x], b) == InBoth(init, b) + if x in b then {x} else {};
  }

  lemma {:induction false} CountIsCardinality(ids: seq<nat>, among: seq<nat>)
    requires DistinctIds(ids)
    ensures CountIn(ids, among) == |InBoth(ids, among)|
  {
    if ids == [] {
      assert InBoth(ids, among) == {};
    } else {
      var init, x := ids[..|ids| - 1], ids[|ids| - 1];
      LastIsNew(ids);
      CountIsCardinality(init, among);
      BothOneMore(init, x, among);
      assert ids == init + [x];
    }
  }

  /** The count over the group's options, and over the chosen ids, is how many of the
      group's options are chosen. */
  lemma ChosenIsCount(g: Group, ids: seq<nat>)
    requires DistinctIds(ids) && DistinctIds(IdsOf(g.options))
    ensures Chosen(g, ids) == CountIn(ids, IdsOf(g.options)) == |ChosenOf(g, ids)|
  {
    CountSymmetric(IdsOf(g.options), ids);
    CountIsCardinality(ids, IdsOf(g.options));
    forall x: nat ensures x in IdsOf(g.options) <==> OptionOf(g, x) { OptionIds(g, x); }
    assert InBoth(ids, IdsOf(g.options)) == ChosenOf(g, ids);
  }

  /** Where one option may be chosen, tapping it chooses it in place of whatever was
      chosen, or takes it back if none need be; other groups keep their choice. */
  lemma TapChoosesOne(ids: seq<nat>, g: Group, opt: MenuOption, x: nat)
    requires opt in g.options && g.maxSelect == 1
    ensures var after := Toggle(ids, g, opt);
      && (!OptionOf(g, x) ==> (x in after <==> x in ids))
      && (OptionOf(g, x) ==> (x in after <==> x == opt.id && !(opt.id in ids && g.minSelect == 0)))
      && (opt.id in after ==> after[|after| - 1] == opt.id)
  {
    OptionIds(g, x);
    OptionIds(g, opt.id);
    var k :| 0 <= k < |g.options| && g.options[k] == opt;
    assert OptionOf(g, opt.id);
  }

  /** Where several may be, tapping a chosen option takes it back, tapping another adds
      it at the end while there is room, and nothing else changes. */
  lemma TapChoosesSeveral(ids: seq<nat>, g: Group, opt: MenuOption, x: nat)
    requires DistinctIds(ids) && DistinctIds(IdsOf(g.options)) && opt in g.options && g.maxSelect != 1
    ensures var after := Toggle(ids, g, opt);
      && (opt.id in ids ==> (x in after <==> x in ids && x != opt.id))
      && (opt.id !in ids ==> after == if |ChosenOf(g, ids)| < g.maxSelect then ids + [opt.id] else ids)
  {
    ChosenIsCount(g, ids);
  }

  // ----- what the price shown is ----------------------------------------------------------------

  lemma {:induction false} DeltaSumOfNone(options: seq<MenuOption>)
    ensures DeltaSum(options, []) == 0
  {
    if options != [] { DeltaSumOfNone(options[..|options| - 1]); }
  }

  lemma {:induction false} DeltaSumAgrees(options: seq<MenuOption>, a: seq<nat>, b: seq<nat>)
    requires forall x :: x in a <==> x in b
    ensures DeltaSum(options, a) == DeltaSum(options, b)
  {
    if options != [] { DeltaSumAgrees(options[..|options| - 1], a, b); }
  }

  lemma {:induction false} DeltaSumAdds(options: seq<MenuOption>, ids: seq<nat>, i: nat, n: nat)
    requires i < |options| && n <= |options| && DistinctIds(IdsOf(options)) && options[i].id !in ids
    ensures DeltaSum(options[..n], ids + [options[i].id]) ==
      DeltaSum(options[..n], ids) + if i < n then options[i].delta else 0
  {
    if n > 0 {
      DeltaSumAdds(options, ids, i, n - 1);
      assert options[..n][..n - 1] == options[..n - 1];
      assert IdsOf(options)[n - 1] == options[n - 1].id && IdsOf(options)[i] == options[i].id;
    }
  }

  /** The price shown: the item's own when nothing is chosen, and each option chosen
      adds its own, in whatever order they were. */
  lemma ShownPrice(item: Item, ids: seq<nat>, i: nat, same: seq<nat>)
    requires WellFormed(item) && i < |AllOptions(item.groups)| && AllOptions(item.groups)[i].id !in ids
    requires forall x :: x in same <==> x in ids
    ensures Unit(item, []) == item.price
    ensures Unit(item, ids + [AllOptions(item.groups)[i].id]) == Unit(item, ids) + AllOptions(item.groups)[i].delta
    ensures Unit(item, same) == Unit(item, ids)
  {
    var options := AllOptions(item.groups);
    DeltaSumOfNone(options);
    DeltaSumAdds(options, ids, i, |options|);
    assert options[..|options|] == options;
    DeltaSumAgrees(options, same, ids);
  }

  // ----- tapping -------------------------------------------------------------------------------

  datatype Tap = Tap(group: nat, option: nat)

  function AfterTap(item: Item, ids: seq<nat>, tap: Tap): seq<nat> {
    if tap.group < |item.groups| && tap.option < |item.groups[tap.group].options|
    then Toggle(ids, item.groups[tap.group], item.groups[tap.group].options[tap.option]) else ids
  }

  function AfterTaps(item: Item, ids: seq<nat>, taps: seq<Tap>): seq<nat>
    decreases |taps|
  {
    if taps == [] then ids else AfterTaps(item, AfterTap(item, ids, taps[0]), taps[1..])
  }

  predicate Selection(item: Item, ids: seq<nat>) {
    && DistinctIds(ids)
    && (forall x <- ids :: x in AllIds(item.groups))
    && (forall i | 0 <= i < |item.groups| :: Chosen(item.groups[i], ids) <= item.groups[i].maxSelect)
  }

  lemma ToggleIds(ids: seq<nat>, g: Group, opt: MenuOption, x: nat)
    requires DistinctIds(ids) && opt in g.options
    ensures DistinctIds(Toggle(ids, g, opt))
    ensures x in Toggle(ids, g, opt) ==> x in ids || x == opt.id
    ensures x !in IdsOf(g.options) ==> (x in Toggle(ids, g, opt) <==> x in ids)
  {
    var k :| 0 <= k < |g.options| && g.options[k] == opt;
    assert IdsOf(g.options)[k] == opt.id;
    AppendDistinct(Without(ids, IdsOf(g.options)), opt.id);
    AppendDistinct(ids, opt.id);
  }

  lemma AppendDistinct(ids: seq<nat>, x: nat)
    requires DistinctIds(ids)
    ensures x !in ids ==> DistinctIds(ids + [x])
  {
  }

  lemma ToggleOwnGroup(ids: seq<nat>, g: Group, opt: MenuOption)
    requires DistinctIds(ids) && opt in g.options && DistinctIds(IdsOf(g.options)) && g.maxSelect >= 1
    requires Chosen(g, ids) <= g.maxSelect
    ensures Chosen(g, Toggle(ids, g, opt)) <= g.maxSelect
  {
    var mine := IdsOf(g.options);
    var k :| 0 <= k < |g.options| && g.options[k] == opt;
    assert mine[k] == opt.id;
    if g.maxSelect == 1 {
      var cleared := Without(ids, mine);
      CountAgree(mine, cleared, []);
      CountIsWeight(mine, []);
      NoneAmong(mine, (x: nat) => 1);
      CountOneMore(mine, cleared, opt.id);
    } else if opt.id in ids {
      CountFewer(mine, Without(ids, [opt.id]), ids);
    } else {
      CountSymmetric(ids, mine);
      CountOneMore(mine, ids, opt.id);
    }
  }

  lemma TapKeepsSelection(item: Item, ids: seq<nat>, tap: Tap)
    requires WellFormed(item) && Selection(item, ids)
    ensures Selection(item, AfterTap(item, ids, tap))
  {
    if tap.group < |item.groups| && tap.option < |item.groups[tap.group].options| {
      var g := item.groups[tap.group];
      var opt := g.options[tap.option];
      var after := Toggle(ids, g, opt);
      ToggleIds(ids, g, opt, opt.id);
      assert IdsOf(g.options)[tap.option] == opt.id;
      forall x <- after ensures x in AllIds(item.groups) {
        ToggleIds(ids, g, opt, x);
        GroupsDisjoint(item.groups, tap.group, tap.group, opt.id);
      }
      forall i | 0 <= i < |item.groups| ensures Chosen(item.groups[i], after) <= item.groups[i].maxSelect {
        GroupsDisjoint(item.groups, i, i, 0);
        if i == tap.group {
          assert g in item.groups;
          ToggleOwnGroup(ids, g, opt);
        } else {
          forall x <- IdsOf(item.groups[i].options) ensures x in after <==> x in ids {
            GroupsDisjoint(item.groups, i, tap.group, x);
            ToggleIds(ids, g, opt, x);
          }
          CountAgree(IdsOf(item.groups[i].options), after, ids);
        }
      }
    }
  }

  /** After any sequence of taps the chosen ids are distinct, are options of the
      item, and stay within each group's maximum. */
  lemma {:induction false} TapsKeepSelection(item: Item, ids: seq<nat>, taps: seq<Tap>)
    requires WellFormed(item) && Selection(item, ids)
    ensures Selection(item, AfterTaps(item, ids, taps))
    decreases |taps|
  {
    if taps != [] {
      TapKeepsSelection(item, ids, taps[0]);
      TapsKeepSelection(item, AfterTap(item, ids, taps[0]), taps[1..]);
    }
  }

  lemma EmptySelection(item: Item)
    ensures Selection(item, [])
  {
    forall i | 0 <= i < |item.groups| ensures Chosen(item.groups[i], []) == 0 {
      CountIsWeight(IdsOf(item.groups[i].options), []);
      NoneAmong(IdsOf(item.groups[i].options), (x: nat) => 1);
    }
  }

  // ----- the preview is the charge ---------------------------------------------------------------

  lemma {:induction false} TagsNameGroups(groups: seq<Group>, k: nat)
    requires k < |AllTagged(groups)|
    ensures exists i | 0 <= i < |groups| ::
      groups[i].id == AllTagged(groups)[k].groupId && AllTagged(groups)[k].opt in groups[i].options
    decreases |groups|
  {
    var n := |groups| - 1;
    if k < |AllTagged(groups[..n])| {
      TagsNameGroups(groups[..n], k);
      var t := AllTagged(groups[..n])[k];
      var i :| 0 <= i < n && groups[..n][i].id == t.groupId && t.opt in groups[..n][i].options;
      assert groups[i] == groups[..n][i];
    } else {
      assert groups[n].id == AllTagged(groups)[k].groupId;
    }
  }

  /** A tag names the group whose options hold it. */
  lemma TagBelongs(item: Item, t: Tagged, i: nat)
    requires WellFormed(item) && t in AllTagged(item.groups) && i < |item.groups|
    ensures t.groupId == item.groups[i].id <==> t.opt.id in IdsOf(item.groups[i].options)
  {
    var k :| 0 <= k < |AllTagged(item.groups)| && AllTagged(item.groups)[k] == t;
    TagsNameGroups(item.groups, k);
    var j :| 0 <= j < |item.groups| && item.groups[j].id == t.groupId && t.opt in item.groups[j].options;
    var m :| 0 <= m < |item.groups[j].options| && item.groups[j].options[m] == t.opt;
    assert IdsOf(item.groups[j].options)[m] == t.opt.id;
    GroupsDisjoint(item.groups, j, i, t.opt.id);
  }

  lemma {:induction false} ServerCountIs(item: Item, ids: seq<nat>, chosen: seq<Tagged>, i: nat)
    requires WellFormed(item) && i < |item.groups| && |chosen| == |ids|
    requires forall k | 0 <= k < |ids| :: chosen[k] in AllTagged(item.groups) && chosen[k].opt.id == ids[k]
    ensures CountOptions(chosen, item.groups[i].id) == CountIn(ids, IdsOf(item.groups[i].options))
  {
    if ids != [] {
      var n := |ids| - 1;
      ServerCountIs(item, ids[..n], chosen[..n], i);
      TagBelongs(item, chosen[n], i);
    }
  }

  lemma EveryOptionFound(item: Item, ids: seq<nat>)
    requires WellFormed(item) && forall x <- ids :: x in AllIds(item.groups)
    ensures var chosen := Lookup(AllTagged(item.groups), ids);
      |chosen| == |ids| && forall k | 0 <= k < |ids| ::
        chosen[k] in AllTagged(item.groups) && chosen[k].opt.id == ids[k]
  {
    var tags := AllTagged(item.groups);
    forall i | 0 <= i < |ids| ensures FindOption(tags, ids[i]).Some? {
      assert ids[i] in ids;
      var k :| 0 <= k < |AllIds(item.groups)| && AllIds(item.groups)[k] == ids[i];
      assert tags[k] in tags && tags[k].opt.id == ids[i];
    }
  }

  lemma {:induction false} NoBadGroup(item: Item, ids: seq<nat>, chosen: seq<Tagged>, n: nat)
    requires WellFormed(item) && Selection(item, ids) && n <= |item.groups| && |chosen| == |ids|
    requires forall k | 0 <= k < |ids| :: chosen[k] in AllTagged(item.groups) && chosen[k].opt.id == ids[k]
    ensures BadGroup(item.groups[..n], chosen).None? <==>
      forall i | 0 <= i < n :: item.groups[i].minSelect <= Chosen(item.groups[i], ids) <= item.groups[i].maxSelect
  {
    if n > 0 {
      NoBadGroup(item, ids, chosen, n - 1);
      assert item.groups[..n][..n - 1] == item.groups[..n - 1];
      ServerCountIs(item, ids, chosen, n - 1);
      GroupsDisjoint(item.groups, n - 1, n - 1, 0);
      CountSymmetric(ids, IdsOf(item.groups[n - 1].options));
    }
  }

  function DeltaOf(options: seq<MenuOption>, id: nat): int {
    if options == [] then 0
    else if options[|options| - 1].id == id then options[|options| - 1].delta
    else DeltaOf(options[..|options| - 1], id)
  }

  lemma {:induction false} DeltaOfOption(options: seq<MenuOption>, i: nat)
    requires i < |options| && DistinctIds(IdsOf(options))
    ensures DeltaOf(options, options[i].id) == options[i].delta
  {
    var n := |options| - 1;
    if i < n {
      assert IdsOf(options)[i] != IdsOf(options)[n];
      assert forall k | 0 <= k < n :: IdsOf(options[..n])[k] == IdsOf(options)[k];
      DeltaOfOption(options[..n], i);
    }
  }

  lemma {:induction false} SheetSumIsWeight(options: seq<MenuOption>, n: nat, ids: seq<nat>, weight: nat -> int)
    requires forall x: nat :: weight(x) == DeltaOf(options, x)
    requires n <= |options| && DistinctIds(IdsOf(options))
    ensures DeltaSum(options[..n], ids) == WeightIn(IdsOf(options)[..n], ids, weight)
  {
    if n > 0 {
      SheetSumIsWeight(options, n - 1, ids, weight);
      assert options[..n][..n - 1] == options[..n - 1];
      assert IdsOf(options)[..n][..n - 1] == IdsOf(options)[..n - 1];
      DeltaOfOption(options, n - 1);
    }
  }

  lemma {:induction false} ServerSumIsWeight(
      options: seq<MenuOption>, ids: seq<nat>, chosen: seq<Tagged>, weight: nat -> int)
    requires forall x: nat :: weight(x) == DeltaOf(options, x)
    requires DistinctIds(IdsOf(options)) && |chosen| == |ids|
    requires forall k | 0 <= k < |ids| :: chosen[k].opt in options && chosen[k].opt.id == ids[k]
    ensures Deltas(chosen) == WeightIn(ids, IdsOf(options), weight)
  {
    if ids != [] {
      var n := |ids| - 1;
      ServerSumIsWeight(options, ids[..n], chosen[..n], weight);
      var i :| 0 <= i < |options| && options[i] == chosen[n].opt;
      DeltaOfOption(options, i);
      assert IdsOf(options)[i] == ids[n];
    }
  }

  /** Adding the option prices up in the order they were tapped, or in menu order,
      comes to the same. */
  lemma SumsAgree(item: Item, ids: seq<nat>, chosen: seq<Tagged>)
    requires WellFormed(item) && DistinctIds(ids) && |chosen| == |ids|
    requires forall k | 0 <= k < |ids| :: chosen[k] in AllTagged(item.groups) && chosen[k].opt.id == ids[k]
    ensures Deltas(chosen) == DeltaSum(AllOptions(item.groups), ids)
  {
    var options := AllOptions(item.groups);
    var weight := (x: nat) => DeltaOf(options, x);
    ChosenAreOptions(item, ids, chosen);
    SheetSumIsWeight(options, |options|, ids, weight);
    assert options[..|options|] == options && IdsOf(options)[..|options|] == IdsOf(options);
    ServerSumIsWeight(options, ids, chosen, weight);
    WeightSymmetric(ids, IdsOf(options), weight);
  }

  lemma ChosenAreOptions(item: Item, ids: seq<nat>, chosen: seq<Tagged>)
    requires |chosen| == |ids| && forall k | 0 <= k < |ids| :: chosen[k] in AllTagged(item.groups)
    ensures forall k | 0 <= k < |ids| :: chosen[k].opt in AllOptions(item.groups)
  {
    forall k | 0 <= k < |ids| ensures chosen[k].opt in AllOptions(item.groups) {
      var m :| 0 <= m < |AllTagged(item.groups)| && AllTagged(item.groups)[m] == chosen[k];
      assert AllOptions(item.groups)[m] == chosen[k].opt;
    }
  }

  /** The sheet's quantity after a number of presses of its two buttons. */
  function SheetQty(presses: seq<bool>): (qty: nat)
    ensures 1 <= qty <= MAX_QTY
  {
    if presses == [] then 1
    else
      var q := SheetQty(presses[..|presses| - 1]);
      if presses[|presses| - 1] then (if q + 1 > MAX_QTY then MAX_QTY else q + 1) else if q == 1 then 1 else q - 1
  }

  /** It starts at one; each press moves it by one, between one and twenty. */
  lemma PressesMean(presses: seq<bool>)
    ensures SheetQty([]) == 1
    ensures SheetQty(presses + [true]) == if SheetQty(presses) < 20 then SheetQty(presses) + 1 else 20
    ensures SheetQty(presses + [false]) == if SheetQty(presses) > 1 then SheetQty(presses) - 1 else 1
  {
    assert (presses + [true])[..|presses|] == presses && (presses + [false])[..|presses|] == presses;
  }

  lemma SelectionPriced(item: Item, ids: seq<nat>)
    requires WellFormed(item) && Selection(item, ids)
    ensures var chosen := Lookup(AllTagged(item.groups), ids);
      && |chosen| == |ids|
      && (BadGroup(item.groups, chosen).None? <==> Valid(item, ids))
      && item.price + Deltas(chosen) == Unit(item, ids)
  {
    EveryOptionFound(item, ids);
    var chosen := Lookup(AllTagged(item.groups), ids);
    NoBadGroup(item, ids, chosen, |item.groups|);
    assert item.groups[..|item.groups|] == item.groups;
    ValidByIndex(item, ids);
    SumsAgree(item, ids, chosen);
  }

  /** For any taps and presses, on an unchanged menu: the server accepts the line
      exactly when the sheet calls it valid and at most MAX_OPTIONS options are
      chosen, and then charges exactly the unit price the sheet showed. */
  lemma PreviewIsCharge(menu: map<nat, Item>, item: Item, taps: seq<Tap>, presses: seq<bool>, note: string)
    requires item.id in menu && menu[item.id] == item && item.available && WellFormed(item) && |note| <= MAX_NOTE
    ensures var ids := AfterTaps(item, [], taps);
      var charge := Charge(menu, CartLine(item.id, SheetQty(presses), note, ids));
      && DistinctIds(ids)
      && (forall i | 0 <= i < |item.groups| :: |ChosenOf(item.groups[i], ids)| <= item.groups[i].maxSelect)
      && (charge.Ok? <==> |ids| <= 20 && forall i | 0 <= i < |item.groups| ::
            item.groups[i].minSelect <= |ChosenOf(item.groups[i], ids)| <= item.groups[i].maxSelect)
      && (charge.Ok? ==> charge.value.unitPrice == Unit(item, ids) && charge.value.qty == SheetQty(presses))
  {
    EmptySelection(item);
    TapsKeepSelection(item, [], taps);
    var ids := AfterTaps(item, [], taps);
    ValidMeans(item, ids);
    SelectionCharged(menu, item, CartLine(item.id, SheetQty(presses), note, ids));
  }

  lemma SelectionCharged(menu: map<nat, Item>, item: Item, line: CartLine)
    requires line.itemId in menu && menu[line.itemId] == item && item.available && WellFormed(item)
    requires Selection(item, line.optionIds)
    ensures var charge := Charge(menu, line);
      && (charge.Ok? <==> InSchema(line) && Valid(item, line.optionIds))
      && (charge.Ok? ==> charge.value.unitPrice == Unit(item, line.optionIds) && charge.value.qty == line.qty)
  {
    SelectionPriced(item, line.optionIds);
  }

  lemma ValidMeans(item: Item, ids: seq<nat>)
    requires WellFormed(item) && DistinctIds(ids)
    ensures Valid(item, ids) <==> forall i | 0 <= i < |item.groups| ::
      item.groups[i].minSelect <= |ChosenOf(item.groups[i], ids)| <= item.groups[i].maxSelect
    ensures forall i | 0 <= i < |item.groups| :: Chosen(item.groups[i], ids) == |ChosenOf(item.groups[i], ids)|
  {
    ValidByIndex(item, ids);
    forall i | 0 <= i < |item.groups| ensures Chosen(item.groups[i], ids) == |ChosenOf(item.groups[i], ids)| {
      GroupsDisjoint(item.groups, i, i, 0);
      ChosenIsCount(item.groups[i], ids);
    }
  }

  lemma ValidByIndex(item: Item, ids: seq<nat>)
    ensures Valid(item, ids) <==>
      forall i | 0 <= i < |item.groups| ::
        item.groups[i].minSelect <= Chosen(item.groups[i], ids) <= item.groups[i].maxSelect
  {
    if Valid(item, ids) {
      forall i | 0 <= i < |item.groups|
        ensures item.groups[i].minSelect <= Chosen(item.groups[i], ids) <= item.groups[i].maxSelect
      {
        assert item.groups[i] in item.groups;
      }
    }
  }

  // ----- pricing a whole order ----------------------------------------------------------------------

  function ItemsTotal(items: seq<Priced>): int {
    if items == [] then 0 else ItemsTotal(items[..|items| - 1]) + items[|items| - 1].unitPrice * items[|items| - 1].qty
  }

  /** The lines the order is stored with. */
  function StoredLines(items: seq<Priced>): (lines: seq<Orders.Line>)
    ensures |lines| == |items| && forall i | 0 <= i < |lines| ::
      && lines[i].name == items[i].name && lines[i].unitPrice == items[i].unitPrice && lines[i].qty == items[i].qty
      && lines[i].note == items[i].note && lines[i].modifiers == items[i].modifiers && lines[i].voidedAt == None
  {
    seq(|items|, i requires 0 <= i < |items| =>
      Orders.Line(i, items[i].name, items[i].unitPrice, items[i].qty, items[i].note, items[i].modifiers, None))
  }

  /** The total an order is placed with is the itemised price of its lines. */
  lemma {:induction false} PlacedTotalIsItemised(items: seq<Priced>)
    ensures Orders.Itemised(StoredLines(items)) == ItemsTotal(items)
    ensures Orders.DistinctIds(StoredLines(items)) && forall l <- StoredLines(items) :: Orders.Live(l)
  {
    if items != [] {
      var n := |items| - 1;
      PlacedTotalIsItemised(items[..n]);
      assert StoredLines(items)[..n] == StoredLines(items[..n]);
    }
  }

  /** The item has this option, under this name. */
  predicate HasOption(item: Item, id: nat, name: string) {
    exists i, j | 0 <= i < |item.groups| && 0 <= j < |item.groups[i].options| ::
      item.groups[i].options[j].id == id && item.groups[i].options[j].name == name
  }

  ghost predicate Offers(item: Item, id: nat) {
    exists name: string :: HasOption(item, id, name)
  }

  lemma {:induction false} TagIsOption(groups: seq<Group>, t: Tagged)
    requires t in AllTagged(groups)
    ensures exists i, j | 0 <= i < |groups| && 0 <= j < |groups[i].options| ::
      groups[i].options[j] == t.opt && groups[i].id == t.groupId
  {
    var n := |groups| - 1;
    if t in AllTagged(groups[..n]) {
      TagIsOption(groups[..n], t);
      var i, j :| 0 <= i < n && 0 <= j < |groups[..n][i].options| &&
        groups[..n][i].options[j] == t.opt && groups[..n][i].id == t.groupId;
      assert groups[i].options[j] == t.opt;
    } else {
      var k :| 0 <= k < |AllTagged(groups)| && AllTagged(groups)[k] == t;
      assert groups[n].options[k - |AllTagged(groups[..n])|] == t.opt;
    }
  }

  lemma {:induction false} OptionIsTagged(groups: seq<Group>, i: nat, j: nat)
    requires i < |groups| && j < |groups[i].options|
    ensures Tagged(groups[i].options[j], groups[i].id) in AllTagged(groups)
    decreases |groups|
  {
    var n := |groups| - 1;
    if i < n {
      OptionIsTagged(groups[..n], i, j);
    } else {
      var k := |AllTagged(groups[..n])| + j;
      assert AllTagged(groups)[k] == Tagged(groups[i].options[j], groups[i].id);
    }
  }

  lemma {:induction false} FirstBadGroup(groups: seq<Group>, chosen: seq<Tagged>)
    ensures BadGroup(groups, chosen).None? <==>
      forall i | 0 <= i < |groups| :: groups[i].minSelect <= CountOptions(chosen, groups[i].id) <= groups[i].maxSelect
    ensures BadGroup(groups, chosen).Some? ==>
      exists i | 0 <= i < |groups| ::
        && groups[i].id == BadGroup(groups, chosen).value
        && !(groups[i].minSelect <= CountOptions(chosen, groups[i].id) <= groups[i].maxSelect)
        && forall j | 0 <= j < i :: groups[j].minSelect <= CountOptions(chosen, groups[j].id) <= groups[j].maxSelect
  {
    if groups != [] {
      var n := |groups| - 1;
      FirstBadGroup(groups[..n], chosen);
      assert forall i | 0 <= i < n :: groups[..n][i] == groups[i];
      if BadGroup(groups[..n], chosen).Some? {
        var i :| 0 <= i < n && groups[..n][i].id == BadGroup(groups, chosen).value
          && !(groups[..n][i].minSelect <= CountOptions(chosen, groups[..n][i].id) <= groups[..n][i].maxSelect)
          && forall j | 0 <= j < i ::
               groups[..n][j].minSelect <= CountOptions(chosen, groups[..n][j].id) <= groups[..n][j].maxSelect;
        assert groups[i] == groups[..n][i];
      } else if BadGroup(groups, chosen).Some? {
        assert groups[n].id == BadGroup(groups, chosen).value;
      }
    }
  }

  lemma OptionFound(item: Item, id: nat)
    ensures FindOption(AllTagged(item.groups), id).Some? <==> Offers(item, id)
    ensures FindOption(AllTagged(item.groups), id).Some? ==>
      HasOption(item, id, FindOption(AllTagged(item.groups), id).value.opt.name)
  {
    var found := FindOption(AllTagged(item.groups), id);
    if found.Some? {
      TagIsOption(item.groups, found.value);
      assert HasOption(item, id, found.value.opt.name);
    } else {
      forall i, j | 0 <= i < |item.groups| && 0 <= j < |item.groups[i].options|
        ensures item.groups[i].options[j].id != id
      {
        OptionIsTagged(item.groups, i, j);
      }
    }
  }

  /** What one cart line comes to: refused for an item that is missing or unavailable,
      then for an option that is not the item's; otherwise, unless a group is over or
      under its bounds, stored under the item's name with the note and quantity sent
      and the names of the options sent, in that order. */
  lemma PricedLineMeans(menu: map<nat, Item>, line: CartLine)
    ensures var r := PriceLine(menu, line);
      var there := line.itemId in menu && menu[line.itemId].available;
      && (!there ==> r == Err(ItemUnavailable(line.itemId)))
      && (there ==>
            var item := menu[line.itemId];
            var known := forall k | 0 <= k < |line.optionIds| :: Offers(item, line.optionIds[k]);
            && (r == Err(InvalidOrder) <==> !known)
            && (r.Err? && r.error != InvalidOrder ==> r.error.InvalidModifiers?)
            && (r.Ok? ==>
                  && r.value.itemId == item.id && r.value.name == item.name
                  && r.value.qty == line.qty && r.value.note == line.note
                  && |r.value.modifiers| == |line.optionIds|
                  && forall k | 0 <= k < |line.optionIds| ::
                       HasOption(item, line.optionIds[k], r.value.modifiers[k])))
  {
    if line.itemId in menu {
      var item := menu[line.itemId];
      forall k | 0 <= k < |line.optionIds|
        ensures FindOption(AllTagged(item.groups), line.optionIds[k]).Some? <==> Offers(item, line.optionIds[k])
        ensures FindOption(AllTagged(item.groups), line.optionIds[k]).Some? ==>
          HasOption(item, line.optionIds[k], FindOption(AllTagged(item.groups), line.optionIds[k]).value.opt.name)
      {
        OptionFound(item, line.optionIds[k]);
      }
    }
  }

  datatype PricedOrder = PricedOrder(items: seq<Priced>, total: int)

  /** The loop over an item's groups. */
  method CheckGroups(groups: seq<Group>, chosen: seq<Tagged>) returns (bad: Option<nat>)
    ensures bad == BadGroup(groups, chosen)
  {
    var i := 0;
    while i < |groups|
      invariant 0 <= i <= |groups| && BadGroup(groups[..i], chosen).None?
    {
      var g := groups[i];
      assert groups[..i + 1][..i] == groups[..i];
      var count := CountOptions(chosen, g.id);
      if count < g.minSelect || count > g.maxSelect {
        BadGroupStays(groups, i + 1, chosen);
        return Some(g.id);
      }
      i := i + 1;
    }
    assert groups[..i] == groups;
    bad := None;
  }

  /** One line: look the item and its options up, then check every group. */
  method PriceCartLine(menu: map<nat, Item>, line: CartLine) returns (r: Result<Priced>)
    ensures r == PriceLine(menu, line)
    ensures r.Ok? ==> r.value.qty == line.qty
  {
    if line.itemId !in menu || !menu[line.itemId].available { return Err(ItemUnavailable(line.itemId)); }
    var item := menu[line.itemId];
    var chosen := Lookup(AllTagged(item.groups), line.optionIds);
    if |chosen| != |line.optionIds| { return Err(InvalidOrder); }
    var bad := CheckGroups(item.groups, chosen);
    if bad.Some? { return Err(InvalidModifiers(bad.value)); }
    r := Ok(Priced(item.id, item.name, item.price + Deltas(chosen), line.qty, line.note, Names(chosen)));
  }

  lemma OneItemMore(items: seq<Priced>, p: Priced)
    ensures ItemsTotal(items + [p]) == ItemsTotal(items) + p.unitPrice * p.qty
  {
    assert (items + [p])[..|items|] == items;
  }

  lemma {:induction false} BadGroupStays(groups: seq<Group>, n: nat, chosen: seq<Tagged>)
    requires n <= |groups| && BadGroup(groups[..n], chosen).Some?
    ensures BadGroup(groups, chosen) == BadGroup(groups[..n], chosen)
    decreases |groups|
  {
    if n == |groups| {
      assert groups[..n] == groups;
    } else {
      assert groups[..|groups| - 1][..n] == groups[..n];
      BadGroupStays(groups[..|groups| - 1], n, chosen);
    }
  }

  function Answers(menu: map<nat, Item>, lines: seq<CartLine>): seq<Result<Priced>> {
    seq(|lines|, i requires 0 <= i < |lines| => PriceLine(menu, lines[i]))
  }

  /** The lines priced in turn, up to the first refusal. */
  function Collected(answers: seq<Result<Priced>>): Result<seq<Priced>> {
    if answers == [] then Ok([])
    else
      var before := Collected(answers[..|answers| - 1]);
      var last := answers[|answers| - 1];
      if before.Err? then before
      else if last.Err? then Err(last.error) else Ok(before.value + [last.value])
  }

  /** One refused line refuses the whole order, and the first such line says why;
      otherwise every line is charged at its own price. */
  lemma {:induction false} CollectedMeans(answers: seq<Result<Priced>>)
    ensures var r := Collected(answers);
      && (r.Ok? <==> forall i | 0 <= i < |answers| :: answers[i].Ok?)
      && (r.Ok? ==> |r.value| == |answers| && forall i | 0 <= i < |answers| :: answers[i] == Ok(r.value[i]))
      && (r.Err? ==>
            exists k | 0 <= k < |answers| :: answers[k] == Err(r.error) && forall i | 0 <= i < k :: answers[i].Ok?)
  {
    if answers != [] {
      var n := |answers| - 1;
      CollectedMeans(answers[..n]);
      if Collected(answers[..n]).Err? {
        var error := Collected(answers[..n]).error;
        var k :| 0 <= k < n && answers[..n][k] == Err(error) && forall i | 0 <= i < k :: answers[..n][i].Ok?;
        assert answers[k] == Err(Collected(answers).error) && forall i | 0 <= i < k :: answers[i] == answers[..n][i];
      } else if answers[n].Err? {
        assert forall i | 0 <= i < n :: answers[i] == answers[..n][i];
        assert answers[n] == Err(Collected(answers).error);
      }
    }
  }

  lemma {:induction false} RefusalStays(answers: seq<Result<Priced>>, n: nat)
    requires n <= |answers| && Collected(answers[..n]).Err?
    ensures Collected(answers) == Collected(answers[..n])
    decreases |answers|
  {
    if n == |answers| {
      assert answers[..n] == answers;
    } else {
      assert answers[..|answers| - 1][..n] == answers[..n];
      RefusalStays(answers[..|answers| - 1], n);
    }
  }

  lemma CollectStep(answers: seq<Result<Priced>>, i: nat)
    requires i < |answers| && Collected(answers[..i]).Ok?
    ensures answers[i].Err? ==> Collected(answers) == Err(answers[i].error)
    ensures answers[i].Ok? ==> Collected(answers[..i + 1]) == Ok(Collected(answers[..i]).value + [answers[i].value])
  {
    assert answers[..i + 1][..i] == answers[..i];
    if answers[i].Err? { RefusalStays(answers, i + 1); }
  }

  lemma AnswersInOrder(menu: map<nat, Item>, lines: seq<CartLine>)
    ensures var r := Collected(Answers(menu, lines));
      && (r.Ok? ==> |r.value| == |lines| && forall i | 0 <= i < |lines| :: PriceLine(menu, lines[i]) == Ok(r.value[i]))
      && (r.Err? ==> exists k | 0 <= k < |lines| ::
            PriceLine(menu, lines[k]) == Err(r.error) && forall i | 0 <= i < k :: PriceLine(menu, lines[i]).Ok?)
  {
    var answers := Answers(menu, lines);
    CollectedMeans(answers);
    forall i | 0 <= i < |lines| ensures answers[i] == PriceLine(menu, lines[i]) { }
    if Collected(answers).Err? {
      var k :| 0 <= k < |answers| && answers[k] == Err(Collected(answers).error) &&
        forall i | 0 <= i < k :: answers[i].Ok?;
      assert PriceLine(menu, lines[k]) == Err(Collected(answers).error);
      forall i | 0 <= i < k ensures PriceLine(menu, lines[i]).Ok? { assert answers[i].Ok?; }
    }
  }

  /** The pricing loop: the order's total is the itemised price of its lines. */
  method PriceOrder(menu: map<nat, Item>, lines: seq<CartLine>) returns (r: Result<PricedOrder>)
    ensures r == match Collected(Answers(menu, lines))
                 case Ok(items) => Ok(PricedOrder(items, Orders.Itemised(StoredLines(items))))
                 case Err(error) => Err(error)
    ensures r.Ok? ==>
      && |r.value.items| == |lines|
      && (forall i | 0 <= i < |lines| :: PriceLine(menu, lines[i]) == Ok(r.value.items[i]))
      && r.value.total == Orders.Itemised(StoredLines(r.value.items))
    ensures r.Err? ==> exists k | 0 <= k < |lines| ::
      PriceLine(menu, lines[k]) == Err(r.error) && forall i | 0 <= i < k :: PriceLine(menu, lines[i]).Ok?
  {
    ghost var answers := Answers(menu, lines);
    AnswersInOrder(menu, lines);
    var items: seq<Priced>, total := [], 0;
    var i := 0;
    while i < |lines|
      invariant 0 <= i <= |lines| == |answers|
      invariant Collected(answers[..i]) == Ok(items)
      invariant total == ItemsTotal(items)
    {
      CollectStep(answers, i);
      var priced := PriceCartLine(menu, lines[i]);
      if priced.Err? { return Err(priced.error); }
      OneItemMore(items, priced.value);
      total := total + priced.value.unitPrice * lines[i].qty;
      items := items + [priced.value];
      i := i + 1;
    }
    assert answers[..i] == answers;
    PlacedTotalIsItemised(items);
    r := Ok(PricedOrder(items, total));
  }
}
