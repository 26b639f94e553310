/** The keys of the plugin's message-template dictionary, as a closed set.
    Every key either configuration record defines, and every key the two
    plugin versions look up, has a constructor; whether a record defines a key
    is a question about that record's map. */
module Messages {

  datatype MessageKey =
    // defined by the current record (and most of them by the older one)
    | NoPermission | NotImplementedMessage | InvalidSyntaxDefault | HelpCommand
    | InvalidSyntaxAddDelItem | ItemAddAlreadyExists | ItemRemoveNotExist | SuccessAddItem | SuccessDelItem
    | InvalidSyntaxAddDelProjectile | ProjectileAddAlreadyExists | ProjectileRemoveNotExist
    | SuccessAddProjectile | SuccessDelProjectile
    | NoSuchRegion | InvalidSyntaxAddDelRegion | RegionAddAlreadyExists | RegionRemoveNotExist
    | SuccessAddRegion | SuccessDelRegion
    | InvalidSyntaxAddDelBuff | BuffRemoveNotExist | BuffAddAlreadyExist | SuccessAddBuff | SuccessDelBuff
    | ListBannedItems | ListBannedProjectiles | ListBannedBuffs | ListBannedRegions | ListInvalidSubCommand
    | InvalidItemType | InvalidBuffType | RegionRestricted
    | PlayerHasInfringement | BannedItems | BannedBuff | DuplicateBuff | IllegalPrefix
    | PrefixedAmmo | PrefixedArmor | DuplicateAccessory | UsedSeventhSlot
    // defined only by the older record
    | XCannotInPvP | BuffCannotInPvP
    | DisableBannedItem | DisableIllegalWeapon | DisablePrefixedAmmo | DisablePrefixedArmor
    | DisableDuplicateAccessory | DisableSeventhSlot
    // looked up by both plugin versions, defined by neither record
    | BannedBuffs
}
