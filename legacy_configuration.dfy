/** The rule set of the older plugin (Configuration.cs at the repository
    root): ban lists that all start empty, the same ammunition and prefix
    tables as the current record, and a smaller message table. It declares no
    toggles; the older plugin's toggles are modelled by LegacyPvPChecks.Toggles. */
module LegacyConfiguration {
  import Messages
  import Current = PvPConfiguration

  datatype Configuration = Configuration(
    bannedItems: seq<int>,
    bannedBuffs: seq<int>,
    bannedProjectiles: seq<int>,
    pvpBuffs: seq<int>,
    ammoIDs: seq<int>,
    universalPrefixIDs: seq<int>,
    weaponPrefixIDs: seq<int>,
    meleePrefixIDs: seq<int>,
    rangedPrefixIDs: seq<int>,
    magicPrefixIDs: seq<int>,
    restrictedRegions: seq<string>,
    messages: map<Messages.MessageKey, string>)

  /** Whether a fresh record's message table defines key `k`. */
  predicate Defines(k: Messages.MessageKey) {
    match k
    case NotImplementedMessage | InvalidSyntaxDefault | HelpCommand | InvalidSyntaxAddDelItem |
      ItemAddAlreadyExists | ItemRemoveNotExist | SuccessAddItem | SuccessDelItem |
      InvalidSyntaxAddDelProjectile | NoSuchRegion | InvalidSyntaxAddDelRegion | RegionAddAlreadyExists |
      RegionRemoveNotExist | SuccessAddRegion | SuccessDelRegion | InvalidSyntaxAddDelBuff |
      InvalidBuffType | BuffRemoveNotExist | BuffAddAlreadyExist | SuccessAddBuff | SuccessDelBuff |
      ListBannedItems | ListBannedProjectiles | ListBannedBuffs | ListBannedRegions | ListInvalidSubCommand |
      InvalidItemType | XCannotInPvP | BuffCannotInPvP | IllegalPrefix | PrefixedAmmo | PrefixedArmor |
      DuplicateAccessory | UsedSeventhSlot | DisableBannedItem | DisableIllegalWeapon | DisablePrefixedAmmo |
      DisablePrefixedArmor | DisableDuplicateAccessory | DisableSeventhSlot => true
    case _ => false
  }

  /** The template text the fresh record gives each key it defines. */
  function Template(k: Messages.MessageKey): string {
    match k
    case NotImplementedMessage => "This command has not been fully implemented yet! Refer to /pvpchecks help for more."
    case InvalidSyntaxDefault => "Invalid syntax. Refer to /pvpchecks help for more."
    case HelpCommand => "Available /pvpchecks Sub-Commands:\nhelp: Displays this help page.\n<ai|ri> <item name | ID>: Adds/removes item in banned items list.\n<ar|rr> <region name>: Adds/removes region in restricted regions.\n<ap|rp> <projectile ID>: Adds/removes projectile in banned projectiles.\n<ab|rb> <buff ID>: Adds/removes buff in banned buffs.\nlist <i|r|p|b>: Lists all banned items, restricted regions, banned projectiles, or banned buffs."
    case InvalidSyntaxAddDelItem => "Invalid syntax. Proper syntax: /pvpchecks <additem, removeitem> <item name>"
    case ItemAddAlreadyExists => "{0} has already been added to the item ban list!"
    case ItemRemoveNotExist => "{0} is not in the item ban list!"
    case SuccessAddItem => "{0} has been added to the list of banned items!"
    case SuccessDelItem => "{0} has been removed from the list of banned items!"
    case InvalidSyntaxAddDelProjectile => "Invalid syntax. Proper syntax: /pvpchecks <addproj, removeproj> <projectile name | ID> <new damage>"
    case NoSuchRegion => "{0} is not a valid region!"
    case InvalidSyntaxAddDelRegion => "Invalid syntax. Proper syntax: /pvpchecks <addregion, removeregion> <region name>"
    case RegionAddAlreadyExists => "{0} has already been added to the restricted region list!"
    case RegionRemoveNotExist => "{0} is not in the restricted region list!"
    case SuccessAddRegion => "{0} has been added to the list of restricted regions!"
    case SuccessDelRegion => "{0} has been removed from the list of restricted regions!"
    case InvalidSyntaxAddDelBuff => "Invalid syntax. Proper syntax: /pvpchecks <addbuff, removebuff> <buff id>"
    case InvalidBuffType => "{0} is not a valid buff ID!"
    case BuffRemoveNotExist => "{0} is not in the buff ban list!"
    case BuffAddAlreadyExist => "{0} has already been added to the buff ban list!"
    case SuccessAddBuff => "{0} has been added to the list of banned buffs!"
    case SuccessDelBuff => "{0} has been removed from the list of banned buffs!"
    case ListBannedItems => "The list of banned items:\n{0}"
    case ListBannedProjectiles => "The list of banned projectiles:\n{0}"
    case ListBannedBuffs => "The list of banned buffs:\n{0}"
    case ListBannedRegions => "The list of restricted regions:\n{0}"
    case ListInvalidSubCommand => "Invalid syntax. Proper syntax: /pvpchecks list <i | r | p>"
    case InvalidItemType => "Invalid item type!"
    case XCannotInPvP => "{0} is banned from PvP, please unequip!"
    case BuffCannotInPvP => "The following buffs are not allowed in PvP: {0}. They have been removed."
    case IllegalPrefix => "Illegally prefixed weapons are not allowed in PvP, please unequip!"
    case PrefixedAmmo => "Prefixed ammo is not allowed in PvP, please unequip!"
    case PrefixedArmor => "Prefixed armour is not allowed in PvP, please unequip!"
    case DuplicateAccessory => "Please remove the duplicate accessory for PvP: {0}"
    case UsedSeventhSlot => "The 7th accessory slot cannot be used in PvP."
    case DisableBannedItem => "Used banned item."
    case DisableIllegalWeapon => "Used illegal weapon."
    case DisablePrefixedAmmo => "Used prefixed ammo."
    case DisablePrefixedArmor => "Used prefixed armor."
    case DisableDuplicateAccessory => "Used duplicate accessories."
    case DisableSeventhSlot => "Used 7th accessory slot."
    case _ => ""
  }

  const DefaultMessages: map<Messages.MessageKey, string> := map k: Messages.MessageKey | Defines(k) :: Template(k)

  /** `new Configuration()` of the older record. Its ammunition and prefix
      tables are the current record's, element for element. */
  function Default(): Configuration {
    Configuration(
      bannedItems := [],
      bannedBuffs := [],
      bannedProjectiles := [],
      pvpBuffs := [],
      ammoIDs := Current.AmmoIDs,
      universalPrefixIDs := Current.UniversalPrefixIDs,
      weaponPrefixIDs := Current.WeaponPrefixIDs,
      meleePrefixIDs := Current.MeleePrefixIDs,
      rangedPrefixIDs := Current.RangedPrefixIDs,
      magicPrefixIDs := Current.MagicPrefixIDs,
      restrictedRegions := [],
      messages := DefaultMessages)
  }

  /** Every ban list, the PvP buff list and the restricted regions start empty. */
  lemma DefaultListsEmpty()
    ensures var c := Default();
      c.bannedItems == [] && c.bannedBuffs == [] && c.bannedProjectiles == []
      && c.pvpBuffs == [] && c.restrictedRegions == []
  {
  }

  /** The fresh message table defines exactly the keys Defines accepts. */
  lemma DefaultMessagesKeys()
    ensures forall k :: k in DefaultMessages <==> Defines(k)
  {
  }

  /** Keys the older plugin (Main.cs) looks up that a fresh older record's
      message table does not define; each such lookup throws at run time. */
  lemma MissingMessageKeys()
    ensures var m := DefaultMessages;
      && Messages.PlayerHasInfringement !in m && Messages.BannedItems !in m && Messages.BannedBuffs !in m
      && Messages.NoPermission !in m && Messages.RegionRestricted !in m
      && Messages.ProjectileAddAlreadyExists !in m && Messages.ProjectileRemoveNotExist !in m
      && Messages.SuccessAddProjectile !in m && Messages.SuccessDelProjectile !in m
  {
    MissingDefines();
    DefaultMessagesKeys();
  }

  /** The same nine keys, stated against Defines. */
  lemma MissingDefines()
    ensures !Defines(Messages.PlayerHasInfringement) && !Defines(Messages.BannedItems) && !Defines(Messages.BannedBuffs)
    ensures !Defines(Messages.NoPermission) && !Defines(Messages.RegionRestricted)
    ensures !Defines(Messages.ProjectileAddAlreadyExists) && !Defines(Messages.ProjectileRemoveNotExist)
    ensures !Defines(Messages.SuccessAddProjectile) && !Defines(Messages.SuccessDelProjectile)
  {}
}
