/** The rule set of the current plugin (PvPChecks/Configuration.cs): toggles,
    ban lists, the ammunition and class prefix tables, and the message
    templates, with the values a fresh configuration file starts from. */
module PvPConfiguration {
  import opened Collections
  import Messages

  datatype Configuration = Configuration(
    enableRegionCheck: bool,
    enableItemCheck: bool,
    enableBuffCheck: bool,
    enablePrefixCheck: bool,
    enableDupeCheck: bool,
    enable7thSlotCheck: bool,
    enableProjectileCheck: bool,
    disablePvP: bool,
    notifyEnterRestrictedRegion: bool,
    messageDisplayDelayInMS: int,
    bannedItems: seq<int>,
    bannedBuffs: seq<int>,
    bannedProjectiles: seq<int>,
    restrictedRegions: seq<string>,
    ammoIDs: seq<int>,
    universalPrefixIDs: seq<int>,
    weaponPrefixIDs: seq<int>,
    meleePrefixIDs: seq<int>,
    rangedPrefixIDs: seq<int>,
    magicPrefixIDs: seq<int>,
    messages: map<Messages.MessageKey, string>)

  const DefaultBannedBuffs: seq<int> :=
    [10, 59, 173, 174, 175, 176, 177, 178, 179, 180, 181, 151, 58, 165, 311, 308, 314, 215, 89, 63, 146]

  const BulletIDs: seq<int> := [97, 234, 278, 515, 546, 1179, 1302, 1335, 1342, 1349, 1350, 1351, 1352, 3104, 3567]
  const ArrowIDs: seq<int> := [40, 41, 47, 51, 265, 516, 545, 682, 988, 1235, 1334, 1341, 3003, 3568]
  const RocketIDs: seq<int> := [771, 772, 773, 774]
  const DartIDs: seq<int> := [1310, 3009, 3010, 3011]
  const MiscAmmoIDs: seq<int> := [283, 154, 1261, 1783, 1785, 1836, 931, 949, 3108]

  /** Item IDs the prefixed-ammunition check looks for, group after group. */
  const AmmoIDs: seq<int> := BulletIDs + ArrowIDs + RocketIDs + DartIDs + MiscAmmoIDs

  const UniversalPrefixIDs: seq<int> := [36, 37, 38, 39, 40, 41, 53, 54, 55, 56, 57, 59, 60, 61]

  /** Prefixes tools cannot carry. */
  const WeaponPrefixIDs: seq<int> := [20, 44, 45, 46, 47, 48, 49, 50, 51, 76]

  const MeleePrefixIDs: seq<int> := [1, 2, 3, 4, 5, 6, 7, 8, 9, 10, 11, 12, 13, 14, 15, 81]
  const RangedPrefixIDs: seq<int> := [16, 17, 18, 19, 20, 21, 22, 23, 24, 25, 58, 82]
  const MagicPrefixIDs: seq<int> := [26, 27, 28, 29, 30, 31, 32, 33, 34, 35, 52, 83]

  /** Whether a fresh record's message table defines key `k`. */
  predicate Defines(k: Messages.MessageKey) {
    match k
    case NoPermission | NotImplementedMessage | InvalidSyntaxDefault | HelpCommand |
      InvalidSyntaxAddDelItem | ItemAddAlreadyExists | ItemRemoveNotExist | SuccessAddItem | SuccessDelItem |
      InvalidSyntaxAddDelProjectile | ProjectileAddAlreadyExists | ProjectileRemoveNotExist |
      SuccessAddProjectile | SuccessDelProjectile | NoSuchRegion | InvalidSyntaxAddDelRegion |
      RegionAddAlreadyExists | RegionRemoveNotExist | SuccessAddRegion | SuccessDelRegion |
      InvalidSyntaxAddDelBuff | BuffRemoveNotExist | BuffAddAlreadyExist | SuccessAddBuff | SuccessDelBuff |
      ListBannedItems | ListBannedProjectiles | ListBannedBuffs | ListBannedRegions | ListInvalidSubCommand |
      InvalidItemType | InvalidBuffType | RegionRestricted | PlayerHasInfringement | BannedItems |
      BannedBuff | DuplicateBuff | IllegalPrefix | PrefixedAmmo | PrefixedArmor | DuplicateAccessory |
      UsedSeventhSlot => true
    case _ => false
  }

  /** The template text the fresh record gives each key it defines. */
  function Template(k: Messages.MessageKey): string {
    match k
    case NoPermission => "You do not have the permission to use this command!"
    case NotImplementedMessage => "This command has not been fully implemented yet! Refer to /pvpchecks help for more."
    case InvalidSyntaxDefault => "Invalid syntax. Refer to /pvpchecks help for more."
    case HelpCommand => "Available /pvpchecks Sub-Commands:\nhelp: Displays this help page.\n<ai|ri> <item name | ID>: Adds/removes item in banned items list.\n<ar|rr> <region name>: Adds/removes region in restricted regions.\n<ap|rp> <projectile ID>: Adds/removes projectile in banned projectiles.\n<ab|rb> <buff ID>: Adds/removes buff in banned buffs.\nlist <i|r|p|b>: Lists all banned items, restricted regions, banned projectiles, or banned buffs."
    case InvalidSyntaxAddDelItem => "Invalid syntax. Proper syntax: /pvpchecks <additem, removeitem> <item name>"
    case ItemAddAlreadyExists => "{0} has already been added to the item ban list!"
    case ItemRemoveNotExist => "{0} is not in the item ban list!"
    case SuccessAddItem => "{0} has been added to the list of banned items!"
    case SuccessDelItem => "{0} has been removed from the list of banned items!"
    case InvalidSyntaxAddDelProjectile => "Invalid syntax. Proper syntax: /pvpchecks <addproj, removeproj> <projectile name | ID> <new damage>"
    case ProjectileAddAlreadyExists => "{0} has already been added to the projectile ban list!"
    case ProjectileRemoveNotExist => "{0} is not in the projectile ban list!"
    case SuccessAddProjectile => "{0} has been added to the list of banned protectiles!"
    case SuccessDelProjectile => "{0} has been removed from the list of banned prjectiles!"
    case NoSuchRegion => "{0} is not a valid region!"
    case InvalidSyntaxAddDelRegion => "Invalid syntax. Proper syntax: /pvpchecks <addregion, removeregion> <region name>"
    case RegionAddAlreadyExists => "{0} has already been added to the restricted region list!"
    case RegionRemoveNotExist => "{0} is not in the restricted region list!"
    case SuccessAddRegion => "{0} has been added to the list of restricted regions!"
    case SuccessDelRegion => "{0} has been removed from the list of restricted regions!"
    case InvalidSyntaxAddDelBuff => "Invalid syntax. Proper syntax: /pvpchecks <addbuff, removebuff> <buff id>"
    case BuffRemoveNotExist => "{0} is not in the buff ban list!"
    case BuffAddAlreadyExist => "{0} has already been added to the buff ban list!"
    case SuccessAddBuff => "{0} has been added to the list of banned buffs!"
    case SuccessDelBuff => "{0} has been removed from the list of banned buffs!"
    case ListBannedItems => "The list of banned items:\n{0}"
    case ListBannedProjectiles => "The list of banned projectiles:\n{0}"
    case ListBannedBuffs => "The list of banned buffs:\n{0}"
    case ListBannedRegions => "The list of restricted regions:\n{0}"
    case ListInvalidSubCommand => "Invalid syntax. Proper syntax: /pvpchecks list <i|r|p|b>"
    case InvalidItemType => "Invalid item type!"
    case InvalidBuffType => "Invalid buff type!"
    case RegionRestricted => "This region has PvP restrictions! For more information, use /pvpchecks info"
    case PlayerHasInfringement => "You have been disabled for not following the PvP rules of this server. Please unequip the following:\n"
    case BannedItems => "Using the following banned items: {0}"
    case BannedBuff => "Using the following banned buffs: {0}"
    case DuplicateBuff => "Please remove all duplicate buffs!"
    case IllegalPrefix => "Illegally prefixed weapons are not allowed in PvP, please unequip!"
    case PrefixedAmmo => "Prefixed ammo is not allowed in PvP, please unequip!"
    case PrefixedArmor => "Prefixed armour is not allowed in PvP, please unequip!"
    case DuplicateAccessory => "Please remove all duplicate accessories for PvP"
    case UsedSeventhSlot => "Please unequip The 7th accessory slot."
    case _ => ""
  }

  const DefaultMessages: map<Messages.MessageKey, string> := map k: Messages.MessageKey | Defines(k) :: Template(k)

  /** `new Configuration()`: the record written when no configuration file exists. */
  function Default(): Configuration {
    Configuration(
      enableRegionCheck := false,
      enableItemCheck := true,
      enableBuffCheck := false,
      enablePrefixCheck := true,
      enableDupeCheck := true,
      enable7thSlotCheck := false,
      enableProjectileCheck := false,
      disablePvP := false,
      notifyEnterRestrictedRegion := true,
      messageDisplayDelayInMS := 10000,
      bannedItems := [],
      bannedBuffs := DefaultBannedBuffs,
      bannedProjectiles := [],
      restrictedRegions := [],
      ammoIDs := AmmoIDs,
      universalPrefixIDs := UniversalPrefixIDs,
      weaponPrefixIDs := WeaponPrefixIDs,
      meleePrefixIDs := MeleePrefixIDs,
      rangedPrefixIDs := RangedPrefixIDs,
      magicPrefixIDs := MagicPrefixIDs,
      messages := DefaultMessages)
  }

  /** The three weapon classes claim pairwise disjoint sets of prefixes. */
  predicate ClassTablesDisjoint(c: Configuration) {
    && Disjoint(c.meleePrefixIDs, c.rangedPrefixIDs)
    && Disjoint(c.meleePrefixIDs, c.magicPrefixIDs)
    && Disjoint(c.rangedPrefixIDs, c.magicPrefixIDs)
  }

  lemma DefaultToggles()
    ensures var c := Default();
      && !c.enableRegionCheck && c.enableItemCheck && !c.enableBuffCheck && c.enablePrefixCheck
      && c.enableDupeCheck && !c.enable7thSlotCheck && !c.enableProjectileCheck
      && !c.disablePvP && c.notifyEnterRestrictedRegion && c.messageDisplayDelayInMS == 10000
  {
  }

  lemma DefaultBannedBuffsDistinct()
    ensures |DefaultBannedBuffs| == 21 && NoDuplicates(DefaultBannedBuffs)
  {
    var a := [10, 59, 173, 174, 175, 176, 177, 178, 179, 180, 181];
    var b := [151, 58, 165, 311, 308, 314, 215, 89, 63, 146];
    assert DefaultBannedBuffs == a + b;
    assert NoDuplicates(a);
    assert NoDuplicates(b);
    assert Disjoint(a, b);
    NoDuplicatesConcat(a, b);
  }

  /** A fresh configuration bans 21 distinct buffs and nothing else. */
  lemma DefaultBanLists()
    ensures var c := Default();
      && c.bannedBuffs == DefaultBannedBuffs
      && c.bannedItems == [] && c.bannedProjectiles == [] && c.restrictedRegions == []
    ensures |DefaultBannedBuffs| == 21 && NoDuplicates(DefaultBannedBuffs)
  {
    DefaultBannedBuffsDistinct();
  }

  lemma AmmoGroupsDistinct()
    ensures NoDuplicates(BulletIDs) && NoDuplicates(ArrowIDs) && NoDuplicates(RocketIDs)
    ensures NoDuplicates(DartIDs) && NoDuplicates(MiscAmmoIDs)
  {
  }

  lemma BulletIDsDisjoint()
    ensures Disjoint(BulletIDs, ArrowIDs) && Disjoint(BulletIDs, RocketIDs)
    ensures Disjoint(BulletIDs, DartIDs) && Disjoint(BulletIDs, MiscAmmoIDs)
  {
  }

  lemma OtherAmmoGroupsDisjoint()
    ensures Disjoint(ArrowIDs, RocketIDs) && Disjoint(ArrowIDs, DartIDs) && Disjoint(ArrowIDs, MiscAmmoIDs)
    ensures Disjoint(RocketIDs, DartIDs) && Disjoint(RocketIDs, MiscAmmoIDs) && Disjoint(DartIDs, MiscAmmoIDs)
  {
  }

  /** No ammunition ID is listed twice. */
  lemma AmmoIDsDistinct()
    ensures NoDuplicates(AmmoIDs)
  {
    var b, a, r, d, m := BulletIDs, ArrowIDs, RocketIDs, DartIDs, MiscAmmoIDs;
    AmmoGroupsDistinct();
    BulletIDsDisjoint();
    OtherAmmoGroupsDisjoint();
    NoDuplicatesConcat(b, a);
    DisjointConcat(b, a, r);
    NoDuplicatesConcat(b + a, r);
    DisjointConcat(b, a, d);
    DisjointConcat(b + a, r, d);
    NoDuplicatesConcat(b + a + r, d);
    DisjointConcat(b, a, m);
    DisjointConcat(b + a, r, m);
    DisjointConcat(b + a + r, d, m);
    NoDuplicatesConcat(b + a + r + d, m);
  }

  lemma DefaultClassTablesDisjoint()
    ensures Disjoint(MeleePrefixIDs, RangedPrefixIDs)
    ensures Disjoint(MeleePrefixIDs, MagicPrefixIDs)
    ensures Disjoint(RangedPrefixIDs, MagicPrefixIDs)
  {
  }

  /** The fresh message table defines exactly the keys Defines accepts. */
  lemma DefaultMessagesKeys()
    ensures forall k :: k in DefaultMessages <==> Defines(k)
  {
  }

  /** Every template the infringement warning is rendered from is defined. */
  lemma InfringementTemplatesDefined()
    ensures Messages.PlayerHasInfringement in DefaultMessages
    ensures Messages.BannedItems in DefaultMessages && Messages.BannedBuff in DefaultMessages
    ensures Messages.DuplicateBuff in DefaultMessages && Messages.IllegalPrefix in DefaultMessages
    ensures Messages.PrefixedArmor in DefaultMessages && Messages.PrefixedAmmo in DefaultMessages
    ensures Messages.DuplicateAccessory in DefaultMessages && Messages.UsedSeventhSlot in DefaultMessages
  {
    InfringementDefines();
    DefaultMessagesKeys();
  }

  /** The same nine keys, stated against Defines. */
  lemma InfringementDefines()
    ensures Defines(Messages.PlayerHasInfringement)
    ensures Defines(Messages.BannedItems) && Defines(Messages.BannedBuff)
    ensures Defines(Messages.DuplicateBuff) && Defines(Messages.IllegalPrefix)
    ensures Defines(Messages.PrefixedArmor) && Defines(Messages.PrefixedAmmo)
    ensures Defines(Messages.DuplicateAccessory) && Defines(Messages.UsedSeventhSlot)
  {
  }

  /** The banned-buff notice of OnTogglePvPOn looks up a key this record does
      not define. */
  lemma BuffNoticeTemplateMissing()
    ensures Messages.BannedBuffs !in DefaultMessages
  {
    assert !Defines(Messages.BannedBuffs);
    DefaultMessagesKeys();
  }
}
