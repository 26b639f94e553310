/** The individual equipment and buff checks of OnPlayerUpdate, shared by both
    plugin versions (PvPChecks/Main.cs and the older Main.cs), and the
    class-exclusive prefix tables OnInit derives. Each check is a predicate
    over the player's state with a lemma saying what it detects. */
module Checks {
  import opened Collections
  import opened Host

  // ---------------------------------------------------------------- gates

  const UseAll: string := "pvpchecks.useall"
  const IgnoreRegion: string := "pvpchecks.ignoreregion"
  const UseBannedBuffs: string := "pvpchecks.usebannedbuffs"
  const UseBannedWeps: string := "pvpchecks.usebannedweps"
  const UseIllegalWeps: string := "pvpchecks.useillegalweps"
  const UsePrefixedAmmo: string := "pvpchecks.useprefixedammo"
  const UsePrefixedArmor: string := "pvpchecks.useprefixedarmor"
  const HaveDupeAccessories: string := "pvpchecks.havedupeaccessories"
  const Use7thSlot: string := "pvpchecks.use7thslot"
  const CommandEdit: string := "pvpchecks.command.edit"

  /** A check runs when its toggle is on and the player lacks its exemption. */
  predicate Active(toggle: bool, p: Player, exemption: string) {
    toggle && !HasPermission(p, exemption)
  }

  /** Where the region check applies to the player, the player stands in a
      restricted region. */
  predicate InCheckedRegion(regionCheck: bool, restricted: seq<string>, p: Player) {
    Active(regionCheck, p, IgnoreRegion) ==> p.currentRegion.Some? && p.currentRegion.value in restricted
  }

  /** The entry gates of OnPlayerUpdate: the player is in PvP, is not exempt
      from every check, and passes the region restriction. */
  predicate PassesGate(regionCheck: bool, restricted: seq<string>, p: Player) {
    && p.hostile
    && !HasPermission(p, UseAll)
    && InCheckedRegion(regionCheck, restricted, p)
  }

  // ---------------------------------------------------------------- banned items

  /** The selected item, when it is banned. */
  function BannedSelection(banned: seq<int>, selected: Option<Item>): (r: seq<Item>)
    ensures |r| <= 1
    ensures r != [] <==> selected.Some? && selected.value.netID in banned
    ensures r != [] ==> r[0] == selected.value
  {
    if selected.Some? && selected.value.netID in banned then [selected.value] else []
  }

  function IsBanned(banned: seq<int>): Item -> bool {
    (it: Item) => it.netID in banned
  }

  /** Evidence of the banned-item check: the selected item if it is banned, then
      every banned miscellaneous equip, then every banned armour or accessory
      slot, in slot order. */
  function BannedItemEvidence(banned: seq<int>, selected: Option<Item>, miscEquips: seq<Item>, armor: seq<Item>): (r: seq<Item>)
    ensures forall i :: 0 <= i < |r| ==> r[i].netID in banned
    ensures forall i :: 0 <= i < |r| ==> (selected.Some? && r[i] == selected.value) || r[i] in miscEquips || r[i] in armor
    ensures forall i :: 0 <= i < |miscEquips| && miscEquips[i].netID in banned ==> miscEquips[i] in r
    ensures forall i :: 0 <= i < |armor| && armor[i].netID in banned ==> armor[i] in r
    ensures selected.Some? && selected.value.netID in banned ==> r != [] && r[0] == selected.value
  {
    BannedSelection(banned, selected) + Filter(miscEquips, IsBanned(banned)) + Filter(armor, IsBanned(banned))
  }

  /** The banned-item check finds something exactly when the selected item, a
      miscellaneous equip or an armour slot carries a banned ID. */
  lemma BannedItemEvidenceEmptyIff(banned: seq<int>, selected: Option<Item>, miscEquips: seq<Item>, armor: seq<Item>)
    ensures BannedItemEvidence(banned, selected, miscEquips, armor) == [] <==>
      && !(selected.Some? && selected.value.netID in banned)
      && (forall i :: 0 <= i < |miscEquips| ==> miscEquips[i].netID !in banned)
      && (forall i :: 0 <= i < |armor| ==> armor[i].netID !in banned)
  {
    var r := BannedItemEvidence(banned, selected, miscEquips, armor);
    if r != [] {
      assert r[0].netID in banned;
      assert (selected.Some? && r[0] == selected.value) || r[0] in miscEquips || r[0] in armor;
    }
  }

  // ---------------------------------------------------------------- buffs

  /** LINQ's `buffType.Distinct().Where(b => BannedBuffs.Contains(b))`: each
      banned buff the player has, once, in order of first appearance. */
  function BannedBuffEvidence(banned: seq<int>, buffType: seq<int>): (r: seq<int>)
    ensures NoDuplicates(r)
    ensures forall i :: 0 <= i < |r| ==> r[i] in banned && r[i] in buffType
    ensures forall i :: 0 <= i < |buffType| && buffType[i] in banned ==> buffType[i] in r
  {
    FilterKeepsNoDuplicates(Distinct(buffType), b => b in banned);
    Filter(Distinct(buffType), b => b in banned)
  }

  /** The evidence is in order of first appearance: one more slot adds its buff
      at the end exactly when the buff is banned and not seen before. */
  lemma BannedBuffEvidenceSnoc(banned: seq<int>, buffType: seq<int>, b: int)
    ensures BannedBuffEvidence(banned, buffType + [b]) ==
      BannedBuffEvidence(banned, buffType) + (if b in banned && b !in buffType then [b] else [])
  {
    var s := buffType + [b];
    assert s[..|s| - 1] == buffType;
    assert b in Distinct(buffType) <==> b in buffType;
    FilterAppend(Distinct(buffType), [b], x => x in banned);
  }

  /** The older plugin's `buffType.Where(type => BannedBuffs.Contains(type))`:
      every slot holding a banned buff, duplicates kept. */
  function BannedBuffSlots(banned: seq<int>, buffType: seq<int>): (r: seq<int>)
    ensures forall i :: 0 <= i < |r| ==> r[i] in banned && r[i] in buffType
    ensures forall i :: 0 <= i < |buffType| && buffType[i] in banned ==> buffType[i] in r
    ensures |r| <= |buffType|
    ensures forall x :: multiset(r)[x] == if x in banned then multiset(buffType)[x] else 0
  {
    FilterCounts(buffType, b => b in banned);
    Filter(buffType, b => b in banned)
  }

  /** Duplicate-buff check as written: the buff array's length differs from its
      distinct count. Empty buff slots hold 0, so they count as duplicates. */
  predicate DuplicateBuffAsWritten(buffType: seq<int>) {
    |buffType| != |Distinct(buffType)|
  }

  /** A player with one buff and two empty slots is flagged. */
  lemma DuplicateBuffCountsEmptySlots()
    ensures DuplicateBuffAsWritten([5, 0, 0])
    ensures !exists i, j :: 0 <= i < j < 3 && [5, 0, 0][i] == [5, 0, 0][j] && [5, 0, 0][i] != 0
  {
    DistinctKeepsLengthIff([5, 0, 0]);
    assert [5, 0, 0][1] == [5, 0, 0][2];
  }

  function IsActiveBuff(b: int): bool { b != 0 }

  /** Duplicate-buff check with empty slots left out. */
  predicate DuplicateBuff(buffType: seq<int>) {
    var active := Filter(buffType, IsActiveBuff);
    |active| != |Distinct(active)|
  }

  /** The corrected check flags exactly two slots holding the same real buff. */
  lemma DuplicateBuffIff(buffType: seq<int>)
    ensures DuplicateBuff(buffType) <==>
      exists i, j :: 0 <= i < j < |buffType| && buffType[i] == buffType[j] && buffType[i] != 0
  {
    DistinctKeepsLengthIff(Filter(buffType, IsActiveBuff));
    FilterNoDuplicatesIff(buffType, IsActiveBuff);
  }

  /** Where no slot is empty, the corrected check is the check as written. */
  lemma DuplicateBuffAgreesWithoutEmptySlots(buffType: seq<int>)
    requires forall i :: 0 <= i < |buffType| ==> buffType[i] != 0
    ensures DuplicateBuff(buffType) == DuplicateBuffAsWritten(buffType)
  {
    FilterAllKept(buffType);
  }

  lemma {:induction false} FilterAllKept(s: seq<int>)
    requires forall i :: 0 <= i < |s| ==> s[i] != 0
    ensures Filter(s, IsActiveBuff) == s
  {
    if s != [] {
      FilterAllKept(s[1..]);
    }
  }

  // ---------------------------------------------------------------- prefixes

  /** The three "illegal prefix" lists of OnInit. */
  datatype PrefixTables = PrefixTables(melee: seq<int>, ranged: seq<int>, magic: seq<int>)

  /** OnInit's derivation on empty lists: a class's illegal prefixes are the
      native prefixes of the two other classes. */
  function DeriveIllegal(meleeIDs: seq<int>, rangedIDs: seq<int>, magicIDs: seq<int>): (t: PrefixTables)
    ensures forall p :: p in t.melee <==> p in rangedIDs || p in magicIDs
    ensures forall p :: p in t.ranged <==> p in meleeIDs || p in magicIDs
    ensures forall p :: p in t.magic <==> p in meleeIDs || p in rangedIDs
  {
    PrefixTables(rangedIDs + magicIDs, meleeIDs + magicIDs, meleeIDs + rangedIDs)
  }

  /** When the class tables are pairwise disjoint, no class's illegal list
      contains one of its own native prefixes. */
  lemma DerivedTablesExcludeNative(meleeIDs: seq<int>, rangedIDs: seq<int>, magicIDs: seq<int>)
    requires Disjoint(meleeIDs, rangedIDs) && Disjoint(meleeIDs, magicIDs) && Disjoint(rangedIDs, magicIDs)
    ensures var t := DeriveIllegal(meleeIDs, rangedIDs, magicIDs);
      && (forall p :: p in meleeIDs ==> p !in t.melee)
      && (forall p :: p in rangedIDs ==> p !in t.ranged)
      && (forall p :: p in magicIDs ==> p !in t.magic)
  {
    DisjointNotIn(meleeIDs, rangedIDs);
    DisjointNotIn(meleeIDs, magicIDs);
    DisjointNotIn(rangedIDs, magicIDs);
  }

  /** The illegal-prefix test on the selected item: a prefixed stackable item,
      or a weapon of a class carrying a prefix of another class. Summon and
      Old One's Army summon weapons count as magic. */
  predicate IllegallyPrefixed(it: Item, t: PrefixTables) {
    || (it.maxStack > 1 && it.prefix != 0)
    || (it.melee && it.prefix in t.melee)
    || (it.ranged && it.prefix in t.ranged)
    || ((it.magic || it.summon || it.dd2Summon) && it.prefix in t.magic)
  }

  /** With derived tables, the test reads directly in terms of the native class
      tables: an item is illegal when it is a prefixed stackable, or one of its
      classes carries a prefix native to another class. */
  lemma IllegallyPrefixedByNativeTables(it: Item, meleeIDs: seq<int>, rangedIDs: seq<int>, magicIDs: seq<int>)
    ensures IllegallyPrefixed(it, DeriveIllegal(meleeIDs, rangedIDs, magicIDs)) <==>
      || (it.maxStack > 1 && it.prefix != 0)
      || (it.melee && (it.prefix in rangedIDs || it.prefix in magicIDs))
      || (it.ranged && (it.prefix in meleeIDs || it.prefix in magicIDs))
      || ((it.magic || it.summon || it.dd2Summon) && (it.prefix in meleeIDs || it.prefix in rangedIDs))
  {
  }

  /** A single-class, non-stackable weapon wearing a prefix of its own class
      passes, provided the class tables are pairwise disjoint. */
  lemma NativePrefixIsLegal(it: Item, meleeIDs: seq<int>, rangedIDs: seq<int>, magicIDs: seq<int>)
    requires Disjoint(meleeIDs, rangedIDs) && Disjoint(meleeIDs, magicIDs) && Disjoint(rangedIDs, magicIDs)
    requires it.maxStack <= 1
    requires it.melee && !it.ranged && !it.magic && !it.summon && !it.dd2Summon
    requires it.prefix in meleeIDs
    ensures !IllegallyPrefixed(it, DeriveIllegal(meleeIDs, rangedIDs, magicIDs))
  {
    DerivedTablesExcludeNative(meleeIDs, rangedIDs, magicIDs);
  }

  /** A ranged weapon wearing a melee prefix is caught. */
  lemma ForeignPrefixIsIllegal(it: Item, meleeIDs: seq<int>, rangedIDs: seq<int>, magicIDs: seq<int>)
    requires it.ranged && it.prefix in meleeIDs
    ensures IllegallyPrefixed(it, DeriveIllegal(meleeIDs, rangedIDs, magicIDs))
  {
  }

  /** A prefixed item in the universal table that is not a class prefix passes
      on any single-class, non-stackable weapon. */
  lemma UniversalPrefixIsLegal(it: Item, meleeIDs: seq<int>, rangedIDs: seq<int>, magicIDs: seq<int>)
    requires it.maxStack <= 1
    requires it.prefix !in meleeIDs && it.prefix !in rangedIDs && it.prefix !in magicIDs
    ensures !IllegallyPrefixed(it, DeriveIllegal(meleeIDs, rangedIDs, magicIDs))
  {
  }

  // ---------------------------------------------------------------- ammunition

  function IsPrefixedAmmo(ammoIDs: seq<int>): Item -> bool {
    (it: Item) => it.netID in ammoIDs && it.prefix != 0
  }

  /** `inventory.Where(item => AmmoIDs.Contains(item.netID) && item.prefix != 0).Count() > 0` */
  predicate HasPrefixedAmmo(inventory: seq<Item>, ammoIDs: seq<int>) {
    |Filter(inventory, IsPrefixedAmmo(ammoIDs))| > 0
  }

  lemma HasPrefixedAmmoIff(inventory: seq<Item>, ammoIDs: seq<int>)
    ensures HasPrefixedAmmo(inventory, ammoIDs) <==>
      exists i :: 0 <= i < |inventory| && inventory[i].netID in ammoIDs && inventory[i].prefix != 0
  {
    var r := Filter(inventory, IsPrefixedAmmo(ammoIDs));
    if |r| > 0 {
      assert r[0] in inventory && IsPrefixedAmmo(ammoIDs)(r[0]);
      var i :| 0 <= i < |inventory| && inventory[i] == r[0];
    }
    if exists i :: 0 <= i < |inventory| && inventory[i].netID in ammoIDs && inventory[i].prefix != 0 {
      var i :| 0 <= i < |inventory| && inventory[i].netID in ammoIDs && inventory[i].prefix != 0;
      assert IsPrefixedAmmo(ammoIDs)(inventory[i]);
      assert inventory[i] in r;
    }
  }

  /** The prefixed-ammunition guard as written: `check && selected.ranged`,
      where `check` stands for the toggle and permission test that precedes it.
      None stands for the null dereference when no item is selected. */
  function PrefixedAmmoGuardAsWritten(check: bool, selected: Option<Item>): (r: Option<bool>)
    ensures r.None? <==> check && selected.None?
    ensures r.Some? ==> (r.value <==> check && selected.value.ranged)
  {
    if !check then Some(false)
    else if selected.None? then None
    else Some(selected.value.ranged)
  }

  /** With the check on and nothing selected, the guard dereferences null. */
  lemma PrefixedAmmoGuardDereferencesNull()
    ensures PrefixedAmmoGuardAsWritten(true, None) == None
  {
  }

  /** The guard with the null test the banned-item and prefix checks make. */
  predicate PrefixedAmmoGuard(check: bool, selected: Option<Item>) {
    check && selected.Some? && selected.value.ranged
  }

  /** Wherever the guard as written does not fail, the corrected guard agrees
      with it; where it fails, the corrected guard skips the check. */
  lemma PrefixedAmmoGuardAgrees(check: bool, selected: Option<Item>)
    ensures PrefixedAmmoGuardAsWritten(check, selected).Some? ==>
      PrefixedAmmoGuard(check, selected) == PrefixedAmmoGuardAsWritten(check, selected).value
    ensures PrefixedAmmoGuardAsWritten(check, selected).None? ==> !PrefixedAmmoGuard(check, selected)
  {
  }

  // ---------------------------------------------------------------- armour

  /** Some worn armour piece (slots 0, 1 and 2) carries a prefix. */
  predicate HasPrefixedBodyArmour(armor: seq<Item>)
    requires |armor| >= BodyArmorSlots
  {
    exists i :: 0 <= i < BodyArmorSlots && armor[i].prefix != 0
  }

  /** The `for (index = 0; index < 3; index++)` scan with its `break`. */
  method ScanBodyArmour(armor: seq<Item>) returns (found: bool)
    requires |armor| >= BodyArmorSlots
    ensures found <==> HasPrefixedBodyArmour(armor)
  {
    found := false;
    var index := 0;
    while index < BodyArmorSlots
      invariant 0 <= index <= BodyArmorSlots
      invariant !found
      invariant forall k :: 0 <= k < index ==> armor[k].prefix == 0
    {
      if armor[index].prefix != 0 {
        found := true;
        break;
      }
      index := index + 1;
    }
  }

  /** `armor.Count() != armor.Distinct().Count()` as written. Distinct
      compares the slots' Item objects with Equals, which Item does not
      override, so two slots are equal only when they hold the same object;
      `refs` names the object held by each slot. */
  predicate DuplicateArmourAsWritten(refs: seq<int>) {
    |refs| != |Distinct(refs)|
  }

  /** The check as written fires exactly when two slots hold the same object. */
  lemma DuplicateArmourAsWrittenIff(refs: seq<int>)
    ensures DuplicateArmourAsWritten(refs) <==> exists i, j :: 0 <= i < j < |refs| && refs[i] == refs[j]
  {
    DistinctKeepsLengthIff(refs);
  }

  /** The item ID in each slot. */
  function ItemIDs(armor: seq<Item>): (r: seq<int>)
    ensures |r| == |armor|
    ensures forall i :: 0 <= i < |armor| ==> r[i] == armor[i].netID
  {
    seq(|armor|, i requires 0 <= i < |armor| => armor[i].netID)
  }

  /** The duplication check as evidently intended: the rule of the corrected
      duplicate-buff check over the slots' item IDs, so two slots wearing the
      same item count and empty slots (ID 0) do not. */
  predicate DuplicateArmour(armor: seq<Item>) {
    DuplicateBuff(ItemIDs(armor))
  }

  /** The corrected check flags exactly two slots wearing the same item. */
  lemma DuplicateArmourIff(armor: seq<Item>)
    ensures DuplicateArmour(armor) <==>
      exists i, j :: 0 <= i < j < |armor| && armor[i].netID == armor[j].netID && armor[i].netID != 0
  {
    var ids := ItemIDs(armor);
    DuplicateBuffIff(ids);
    if exists i, j :: 0 <= i < j < |ids| && ids[i] == ids[j] && ids[i] != 0 {
      var i, j :| 0 <= i < j < |ids| && ids[i] == ids[j] && ids[i] != 0;
      assert armor[i].netID == armor[j].netID && armor[i].netID != 0;
    }
  }

  /** Terraria's empty slot: item 0 with no prefix. */
  const Empty: Item := Item(0, 0, 0, false, false, false, false, false)

  /** The host keeps a separate Item object in every slot, so the check as
      written never fires, whatever the player wears. */
  lemma SeparateSlotsNeverDuplicate(refs: seq<int>)
    requires NoDuplicates(refs)
    ensures !DuplicateArmourAsWritten(refs)
  {
    DistinctKeepsLengthIff(refs);
  }

  /** The same accessory worn in two slots is what the corrected check flags. */
  lemma SameAccessoryTwiceFlagged(a: Item)
    requires a.netID != 0
    ensures DuplicateArmour([Empty, Empty, Empty, a, a, Empty, Empty, Empty, Empty, Empty])
  {
    var twice := [Empty, Empty, Empty, a, a, Empty, Empty, Empty, Empty, Empty];
    DuplicateArmourIff(twice);
    assert twice[3].netID == twice[4].netID;
  }

  /** Had the slots been compared by item ID instead, any two empty slots
      would already count as a duplicate; the corrected check skips them. */
  lemma EmptySlotsCollideByItemID(armor: seq<Item>, i: nat, j: nat)
    requires i < j < |armor| && armor[i].netID == 0 && armor[j].netID == 0
    ensures DuplicateBuffAsWritten(ItemIDs(armor))
  {
    var ids := ItemIDs(armor);
    DistinctKeepsLengthIff(ids);
    assert ids[i] == ids[j];
  }

  /** The seventh accessory slot holds an item. */
  predicate UsesSeventhSlot(armor: seq<Item>)
    requires |armor| >= ArmorSlots
  {
    armor[SeventhSlot].netID != 0
  }
}
