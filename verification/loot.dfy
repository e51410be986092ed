/**
  `LootConfig` of `Lootconfig.py`: six loot flags, six id sets and a pickup
  radius, and the keep-or-drop decision `GetfilteredLootArray` makes for each
  item on the ground.

  The game state the filter reads (agent validity, owners, item ids, model
  ids, rarities, party roles, distances) arrives as parameters.
 */
module Loot {
  import opened Wrappers
  import opened PyValue

  /** `Range.Earshot.value`, the default pickup radius: the `Range` enum is not part of this model, and 1012 is its Earshot value. */
  const EARSHOT: real := 1012.0

  datatype Config = Config(
    lootGoldCoins: bool,
    lootWhites: bool,
    lootBlues: bool,
    lootPurples: bool,
    lootGolds: bool,
    lootGreens: bool,
    whitelist: set<int>,
    blacklist: set<int>,
    itemIdBlacklist: set<int>,
    itemIdWhitelist: set<int>,
    dyeWhitelist: set<int>,
    dyeBlacklist: set<int>,
    pickupRadius: real)

  /** The six sets: by model id, by item id, and by first dye colour. */
  datatype Which = ModelWhitelist | ModelBlacklist | ItemIdWhitelist | ItemIdBlacklist | DyeWhitelist | DyeBlacklist

  /** The ids in one of the sets. */
  function Members(c: Config, w: Which): set<int> {
    match w
    case ModelWhitelist => c.whitelist
    case ModelBlacklist => c.blacklist
    case ItemIdWhitelist => c.itemIdWhitelist
    case ItemIdBlacklist => c.itemIdBlacklist
    case DyeWhitelist => c.dyeWhitelist
    case DyeBlacklist => c.dyeBlacklist
  }

  /** Replace one set, leaving the other five, the flags and the radius alone. */
  function WithMembers(c: Config, w: Which, s: set<int>): (r: Config)
    ensures Members(r, w) == s
    ensures forall v :: v != w ==> Members(r, v) == Members(c, v)
    ensures SameFlags(r, c) && r.pickupRadius == c.pickupRadius
  {
    match w
    case ModelWhitelist => c.(whitelist := s)
    case ModelBlacklist => c.(blacklist := s)
    case ItemIdWhitelist => c.(itemIdWhitelist := s)
    case ItemIdBlacklist => c.(itemIdBlacklist := s)
    case DyeWhitelist => c.(dyeWhitelist := s)
    case DyeBlacklist => c.(dyeBlacklist := s)
  }

  /** The six loot flags agree. */
  predicate SameFlags(a: Config, b: Config) {
    && a.lootGoldCoins == b.lootGoldCoins && a.lootWhites == b.lootWhites && a.lootBlues == b.lootBlues
    && a.lootPurples == b.lootPurples && a.lootGolds == b.lootGolds && a.lootGreens == b.lootGreens
  }

  /** The six sets agree. */
  predicate SameSets(a: Config, b: Config) {
    forall w: Which :: Members(a, w) == Members(b, w)
  }

  /** `reset()`, which is also what a fresh `LootConfig()` holds. */
  function Reset(): (c: Config)
    ensures !c.lootGoldCoins && !c.lootWhites && !c.lootBlues && !c.lootPurples && !c.lootGolds && !c.lootGreens
    ensures forall w: Which :: Members(c, w) == {}
    ensures c.pickupRadius == EARSHOT
  {
    Config(false, false, false, false, false, false, {}, {}, {}, {}, {}, {}, EARSHOT)
  }

  /** `SetProperties(...)`: the six flags, and nothing else. */
  function SetProperties(c: Config, whites: bool, blues: bool, purples: bool, golds: bool, greens: bool,
                         goldCoins: bool): (r: Config)
    ensures r.lootWhites == whites && r.lootBlues == blues && r.lootPurples == purples
    ensures r.lootGolds == golds && r.lootGreens == greens && r.lootGoldCoins == goldCoins
    ensures SameSets(r, c) && r.pickupRadius == c.pickupRadius
  {
    c.(lootGoldCoins := goldCoins, lootWhites := whites, lootBlues := blues, lootPurples := purples,
       lootGolds := golds, lootGreens := greens)
  }

  /** `AddToWhitelist`, `AddToBlacklist`, `AddItemIDToWhitelist`, ...: `set.add`. */
  function Add(c: Config, w: Which, id: int): (r: Config)
    ensures Contains(r, w, id)
    ensures Members(r, w) == Members(c, w) + {id}
    ensures forall v :: v != w ==> Members(r, v) == Members(c, v)
    ensures SameFlags(r, c) && r.pickupRadius == c.pickupRadius
  {
    WithMembers(c, w, Members(c, w) + {id})
  }

  /** `RemoveFromWhitelist`, ...: `set.discard`, which ignores an absent id. */
  function Remove(c: Config, w: Which, id: int): (r: Config)
    ensures !Contains(r, w, id)
    ensures Members(r, w) == Members(c, w) - {id}
    ensures forall v :: v != w ==> Members(r, v) == Members(c, v)
    ensures SameFlags(r, c) && r.pickupRadius == c.pickupRadius
    ensures !Contains(c, w, id) ==> r == c
  {
    if id in Members(c, w) then WithMembers(c, w, Members(c, w) - {id}) else c
  }

  /** `ClearWhitelist`, ...: `set.clear`. */
  function Clear(c: Config, w: Which): (r: Config)
    ensures forall id :: !Contains(r, w, id)
    ensures forall v :: v != w ==> Members(r, v) == Members(c, v)
    ensures SameFlags(r, c) && r.pickupRadius == c.pickupRadius
  {
    WithMembers(c, w, {})
  }

  /** `IsWhitelisted`, `IsBlacklisted`, `IsItemIDWhitelisted`, ...: membership. */
  predicate Contains(c: Config, w: Which, id: int) {
    id in Members(c, w)
  }

  /** Removing an id right after adding it leaves the set as it was, if the id was not there before. */
  lemma RemoveUndoesAdd(c: Config, w: Which, id: int)
    requires !Contains(c, w, id)
    ensures Remove(Add(c, w, id), w, id) == c
  {
    var r := Remove(Add(c, w, id), w, id);
    assert Members(r, w) == Members(c, w);
    assert SameSets(r, c);
  }

  /** Two configurations that agree on every set, flag and the radius are the same configuration. */
  lemma {:induction false} ConfigExt(a: Config, b: Config)
    requires SameSets(a, b) && SameFlags(a, b) && a.pickupRadius == b.pickupRadius
    ensures a == b
  {
    assert Members(a, ModelWhitelist) == Members(b, ModelWhitelist);
    assert Members(a, ModelBlacklist) == Members(b, ModelBlacklist);
    assert Members(a, ItemIdWhitelist) == Members(b, ItemIdWhitelist);
    assert Members(a, ItemIdBlacklist) == Members(b, ItemIdBlacklist);
    assert Members(a, DyeWhitelist) == Members(b, DyeWhitelist);
    assert Members(a, DyeBlacklist) == Members(b, DyeBlacklist);
  }

  /**
    `SetPickupRadius(radius)`: a value `float()` rejects changes nothing; a
    negative one becomes `0.0`.
   */
  function SetPickupRadius(c: Config, radius: Value, parse: FloatParser): (r: Config)
    ensures ToFloat(radius, parse).None? ==> r == c
    ensures ToFloat(radius, parse).Some? ==>
      var v := ToFloat(radius, parse).value;
      r.pickupRadius == (if v < 0.0 then 0.0 else v) && r.pickupRadius >= 0.0
    ensures SameFlags(r, c) && SameSets(r, c)
    ensures c.pickupRadius >= 0.0 ==> r.pickupRadius >= 0.0
  {
    match ToFloat(radius, parse)
    case None => c
    case Some(v) => c.(pickupRadius := if v < 0.0 then 0.0 else v)
  }

  /** `Item.Rarity`: the five colours the filter checks, and anything else. */
  datatype Rarity = White | Blue | Purple | Gold | Green | OtherRarity

  /** What the filter reads about one item agent. */
  datatype ItemInfo = ItemInfo(itemId: int, modelId: int, rarity: Rarity)

  /** The rarity stage: each colour needs its flag; an item of no listed colour passes. */
  predicate RarityAllowed(c: Config, r: Rarity) {
    match r
    case White => c.lootWhites
    case Blue => c.lootBlues
    case Purple => c.lootPurples
    case Gold => c.lootGolds
    case Green => c.lootGreens
    case OtherRarity => true
  }

  /** Whether the loop of `GetfilteredLootArray` leaves the item in the array. */
  predicate Keep(c: Config, it: ItemInfo) {
    if it.itemId in c.itemIdWhitelist then true
    else if it.itemId in c.itemIdBlacklist then false
    else if it.modelId in c.whitelist then true
    else if it.modelId in c.blacklist then false
    else RarityAllowed(c, it.rarity)
  }

  /**
    The precedence: item-id whitelist, then item-id blacklist, then model
    whitelist, then model blacklist, and only then the rarity.
   */
  lemma KeepPrecedence(c: Config, it: ItemInfo)
    ensures it.itemId in c.itemIdWhitelist ==> Keep(c, it)
    ensures (it.itemId !in c.itemIdWhitelist && it.itemId in c.itemIdBlacklist) ==> !Keep(c, it)
    ensures (it.itemId !in c.itemIdWhitelist + c.itemIdBlacklist && it.modelId in c.whitelist) ==> Keep(c, it)
    ensures (it.itemId !in c.itemIdWhitelist + c.itemIdBlacklist && it.modelId !in c.whitelist
             && it.modelId in c.blacklist) ==> !Keep(c, it)
    ensures (it.itemId !in c.itemIdWhitelist + c.itemIdBlacklist && it.modelId !in c.whitelist + c.blacklist)
            ==> (Keep(c, it) <==> RarityAllowed(c, it.rarity))
  {
  }

  /** Whitelisting an id, by model or by item id, never drops an item. */
  lemma WhitelistingNeverDrops(c: Config, it: ItemInfo, id: int)
    requires Keep(c, it)
    ensures Keep(Add(c, ModelWhitelist, id), it) && Keep(Add(c, ItemIdWhitelist, id), it)
  {
    assert Add(c, ModelWhitelist, id) == c.(whitelist := c.whitelist + {id});
    assert Add(c, ItemIdWhitelist, id) == c.(itemIdWhitelist := c.itemIdWhitelist + {id});
  }

  /** Blacklisting an id, by model or by item id, never keeps an item that was dropped. */
  lemma BlacklistingNeverKeeps(c: Config, it: ItemInfo, id: int)
    requires !Keep(c, it)
    ensures !Keep(Add(c, ModelBlacklist, id), it) && !Keep(Add(c, ItemIdBlacklist, id), it)
  {
    assert Add(c, ModelBlacklist, id) == c.(blacklist := c.blacklist + {id});
    assert Add(c, ItemIdBlacklist, id) == c.(itemIdBlacklist := c.itemIdBlacklist + {id});
  }

  /** The dye lists play no part in the decision. */
  lemma DyeListsIgnored(c: Config, it: ItemInfo, w: Which, s: set<int>)
    requires w == DyeWhitelist || w == DyeBlacklist
    ensures Keep(WithMembers(c, w, s), it) == Keep(c, it)
  {
    var r := WithMembers(c, w, s);
    assert r.itemIdWhitelist == c.itemIdWhitelist && r.itemIdBlacklist == c.itemIdBlacklist;
    assert r.whitelist == c.whitelist && r.blacklist == c.blacklist;
  }

  /** A fresh configuration keeps exactly the items of no listed colour. */
  lemma ResetKeepsOnlyUncoloured(it: ItemInfo)
    ensures Keep(Reset(), it) <==> it.rarity == OtherRarity
  {
  }

  /** The elements of `s` that satisfy `p`, in their order in `s`. */
  function Select(s: seq<int>, p: int -> bool): (r: seq<int>)
    ensures |r| <= |s|
  {
    if |s| == 0 then []
    else
      var rest := Select(s[..|s| - 1], p);
      if p(s[|s| - 1]) then rest + [s[|s| - 1]] else rest
  }

  /** An element is selected exactly when it occurs in `s` and passes `p`. */
  lemma {:induction false} SelectMembers(s: seq<int>, p: int -> bool, x: int)
    ensures x in Select(s, p) <==> x in s && p(x)
  {
    if |s| > 0 {
      var pre := s[..|s| - 1];
      SelectMembers(pre, p, x);
      assert s == pre + [s[|s| - 1]];
    }
  }

  /** `a` is `b` with some elements left out and the rest in order. */
  predicate IsSubsequence(a: seq<int>, b: seq<int>)
    decreases |b|
  {
    if |a| == 0 then true
    else if |b| == 0 then false
    else if a[|a| - 1] == b[|b| - 1] then IsSubsequence(a[..|a| - 1], b[..|b| - 1])
    else IsSubsequence(a, b[..|b| - 1])
  }

  /** What `Select` keeps is a subsequence of its input. */
  lemma {:induction false} SelectIsSubsequence(s: seq<int>, p: int -> bool)
    ensures IsSubsequence(Select(s, p), s)
  {
    if |s| > 0 {
      var pre := s[..|s| - 1];
      SelectIsSubsequence(pre, p);
      var r := Select(s, p);
      if !p(s[|s| - 1]) {
        SubsequenceOfLonger(Select(pre, p), pre, s[|s| - 1]);
      } else {
        assert r[..|r| - 1] == Select(pre, p);
      }
    }
  }

  /** A subsequence of `b` is one of `b + [x]`. */
  lemma {:induction false} SubsequenceOfLonger(a: seq<int>, b: seq<int>, x: int)
    requires IsSubsequence(a, b)
    ensures IsSubsequence(a, b + [x])
    decreases |b|, 1
  {
    if |a| > 0 && a[|a| - 1] == x {
      // matched against x: a without its last element must still fit in b
      SubsequenceDropLast(a, b);
      assert (b + [x])[..|b|] == b;
    } else if |a| > 0 {
      assert (b + [x])[..|b|] == b;
    }
  }

  /** Dropping the last element of a subsequence keeps it a subsequence. */
  lemma {:induction false} SubsequenceDropLast(a: seq<int>, b: seq<int>)
    requires |a| > 0 && IsSubsequence(a, b)
    ensures IsSubsequence(a[..|a| - 1], b)
    decreases |b|, 0
  {
    var pre := b[..|b| - 1];
    if a[|a| - 1] == b[|b| - 1] {
      SubsequenceOfLonger(a[..|a| - 1], pre, b[|b| - 1]);
      assert pre + [b[|b| - 1]] == b;
    } else {
      SubsequenceDropLast(a, pre);
      SubsequenceOfLonger(a[..|a| - 1], pre, b[|b| - 1]);
      assert pre + [b[|b| - 1]] == b;
    }
  }

  /** Both tests at once. */
  function Both(p: int -> bool, q: int -> bool): int -> bool {
    x => p(x) && q(x)
  }

  /** Selecting twice is selecting once by both tests. */
  lemma {:induction false} SelectSelect(s: seq<int>, p: int -> bool, q: int -> bool)
    ensures Select(Select(s, p), q) == Select(s, Both(p, q))
  {
    if |s| > 0 {
      var pre := s[..|s| - 1];
      var x := s[|s| - 1];
      SelectSelect(pre, p, q);
      var r := Select(pre, p);
      if p(x) {
        assert (r + [x])[..|r|] == r;
      }
    }
  }

  /** Selecting over one more element of `s`. */
  lemma SelectStep(s: seq<int>, p: int -> bool, i: nat)
    requires i < |s|
    ensures Select(s[..i + 1], p) == Select(s[..i], p) + (if p(s[i]) then [s[i]] else [])
  {
    assert s[..i + 1][..i] == s[..i];
  }

  /** `list.remove(x)`: the first occurrence of `x` goes. */
  function RemoveFirst(s: seq<int>, x: int): (r: seq<int>)
    requires x in s
    ensures |r| == |s| - 1
  {
    if s[0] == x then s[1..] else [s[0]] + RemoveFirst(s[1..], x)
  }

  /** Removing `x` where it first occurs after a stretch without it. */
  lemma {:induction false} RemoveFirstAfter(a: seq<int>, x: int, b: seq<int>)
    requires x !in a
    ensures RemoveFirst(a + [x] + b, x) == a + b
  {
    if |a| > 0 {
      RemoveFirstAfter(a[1..], x, b);
      assert (a + [x] + b)[1..] == a[1..] + [x] + b;
      assert [a[0]] + (a[1..] + b) == a + b;
    }
  }

  /** The agents the configuration keeps, as a test on agent ids. */
  function KeepAgent(c: Config, info: int -> ItemInfo): int -> bool {
    a => Keep(c, info(a))
  }

  /**
    The `for agent_id in loot_array[:]` loop of `GetfilteredLootArray`:
    every agent the configuration does not keep is removed from the array.
   */
  method FilterLoot(c: Config, loot: seq<int>, info: int -> ItemInfo) returns (kept: seq<int>)
    ensures kept == Select(loot, KeepAgent(c, info))
    ensures IsSubsequence(kept, loot)
    ensures forall a :: a in kept <==> a in loot && Keep(c, info(a))
  {
    kept := RemoveRejected(loot, KeepAgent(c, info));
    forall a
      ensures a in kept <==> a in loot && Keep(c, info(a))
    {
      SelectMembers(loot, KeepAgent(c, info), a);
    }
  }

  /**
    Iterating over a copy of `loot` and calling `remove` on each agent that
    fails `keep`: the first occurrence goes each time, which is always the one
    the loop is looking at, so `remove` never raises.
   */
  method RemoveRejected(loot: seq<int>, keep: int -> bool) returns (kept: seq<int>)
    ensures kept == Select(loot, keep)
    ensures IsSubsequence(kept, loot)
  {
    kept := loot;
    var idx := 0;
    assert loot[..0] == [];
    while idx < |loot|
      invariant idx <= |loot|
      invariant kept == Select(loot[..idx], keep) + loot[idx..]
    {
      var a := loot[idx];
      RemoveStep(loot, keep, idx);
      if !keep(a) {
        kept := RemoveFirst(kept, a);
      }
      idx := idx + 1;
    }
    assert loot[..idx] == loot;
    SelectIsSubsequence(loot, keep);
  }

  /**
    One turn of that loop: the agent looked at is the first occurrence of
    itself after the kept prefix, so removing it, or keeping it, moves the
    boundary one place on.
   */
  lemma RemoveStep(loot: seq<int>, keep: int -> bool, idx: nat)
    requires idx < |loot|
    ensures var kept := Select(loot[..idx], keep) + loot[idx..];
      && (keep(loot[idx]) ==> kept == Select(loot[..idx + 1], keep) + loot[idx + 1..])
      && (!keep(loot[idx]) ==>
            loot[idx] in kept && RemoveFirst(kept, loot[idx]) == Select(loot[..idx + 1], keep) + loot[idx + 1..])
  {
    var a := loot[idx];
    var done := Select(loot[..idx], keep);
    var rest := loot[idx + 1..];
    SelectStep(loot, keep, idx);
    assert loot[idx..] == [a] + rest;
    assert done + loot[idx..] == done + [a] + rest;
    if !keep(a) {
      SelectMembers(loot[..idx], keep, a);
      RemoveFirstAfter(done, a, rest);
    }
  }

  /** Who the caller is in the party. */
  datatype PartyView = PartyView(playerId: int, leaderId: int)

  /** What the ownership checks read about one item agent. */
  datatype Ownership = Ownership(valid: bool, ownerId: int, modelId: int)

  /** `IsValidItem`: a valid agent that the player owns or that nobody owns. */
  predicate ValidItem(p: PartyView, o: Ownership) {
    o.valid && (o.ownerId == p.playerId || o.ownerId == 0)
  }

  /**
    `IsValidFollowerItem`: a party leader also takes gold coins, or any
    unassigned loot when allowed; a follower only what it owns.
   */
  predicate ValidFollowerItem(p: PartyView, o: Ownership, allowUnassigned: bool, goldCoinsModel: int) {
    && o.valid
    && if p.leaderId == p.playerId then
         o.ownerId == p.playerId || (if o.modelId == goldCoinsModel then true else allowUnassigned)
       else o.ownerId == p.playerId
  }

  /** The inputs of one `GetfilteredLootArray` call, read from the game. */
  datatype Ground = Ground(
    mapValid: bool,
    items: seq<int>,
    inRange: int -> bool,
    owner: int -> Ownership,
    info: int -> ItemInfo,
    party: PartyView,
    goldCoinsModel: int)

  /** The ownership test the call applies. */
  predicate Owned(g: Ground, multibox: bool, allowUnassigned: bool, a: int) {
    if multibox then ValidFollowerItem(g.party, g.owner(a), allowUnassigned, g.goldCoinsModel)
    else ValidItem(g.party, g.owner(a))
  }

  /** The ownership test of the call, as a test on agent ids. */
  function OwnedAgent(g: Ground, multibox: bool, allowUnassigned: bool): int -> bool {
    a => Owned(g, multibox, allowUnassigned, a)
  }

  /** The three filters of the call, in the order it applies them. */
  function Wanted(c: Config, g: Ground, multibox: bool, allowUnassigned: bool): int -> bool {
    Both(Both(g.inRange, OwnedAgent(g, multibox, allowUnassigned)), KeepAgent(c, g.info))
  }

  /**
    `GetfilteredLootArray(distance, multibox_loot, allow_unasigned_loot)` before
    its final sort: `g.inRange` is the distance filter for `distance`.
   */
  method FilteredLootArray(c: Config, g: Ground, multibox: bool, allowUnassigned: bool) returns (r: seq<int>)
    ensures !g.mapValid ==> r == []
    ensures g.mapValid ==> r == Select(g.items, Wanted(c, g, multibox, allowUnassigned))
    ensures g.mapValid ==> forall a :: a in r <==>
      a in g.items && g.inRange(a) && Owned(g, multibox, allowUnassigned, a) && Keep(c, g.info(a))
    ensures IsSubsequence(r, g.items)
  {
    if !g.mapValid {
      return [];
    }
    var near := Select(g.items, g.inRange);
    var owned := Select(near, OwnedAgent(g, multibox, allowUnassigned));
    r := FilterLoot(c, owned, g.info);
    SelectSelect(g.items, g.inRange, OwnedAgent(g, multibox, allowUnassigned));
    SelectSelect(g.items, Both(g.inRange, OwnedAgent(g, multibox, allowUnassigned)), KeepAgent(c, g.info));
    SelectIsSubsequence(g.items, Wanted(c, g, multibox, allowUnassigned));
    WantedMembers(c, g, multibox, allowUnassigned);
  }

  /** An agent survives the three filters exactly when it is on the ground and passes each. */
  lemma WantedMembers(c: Config, g: Ground, multibox: bool, allowUnassigned: bool)
    ensures forall a :: a in Select(g.items, Wanted(c, g, multibox, allowUnassigned)) <==>
      a in g.items && g.inRange(a) && Owned(g, multibox, allowUnassigned, a) && Keep(c, g.info(a))
  {
    forall a
      ensures a in Select(g.items, Wanted(c, g, multibox, allowUnassigned)) <==>
        a in g.items && g.inRange(a) && Owned(g, multibox, allowUnassigned, a) && Keep(c, g.info(a))
    {
      SelectMembers(g.items, Wanted(c, g, multibox, allowUnassigned), a);
    }
  }
}
