# PvPChecks rule engine in Dafny

PvPChecks is a TShock server plugin for Terraria. It enforces fair-play rules on players who
have player-versus-player combat switched on. On every player update it checks four things:
the selected and equipped items, the ammunition carried, the active buffs, and the armour and
accessory slots. Each rule the player breaks becomes an *infringement*. The plugin then
disables the player, may force combat off, and sends at most one combined warning per
cooldown period. Administrators edit the ban lists with chat sub-commands.

The repository holds two versions of the plugin, and both are modelled:

- `PvPChecks/Main.cs` with `PvPChecks/Configuration.cs`, the newer version. It is modelled by
  modules `PvPConfiguration` and `PvPChecks`.
- `Main.cs` with `Configuration.cs`, the older version. It is modelled by modules
  `LegacyConfiguration` and `LegacyPvPChecks`. This version strips banned buffs on the spot
  instead of reporting them. It also reads eight flags and the warning delay that its
  configuration record does not declare, so the model passes them in as a separate `Toggles`
  value.

Shared modules:

- `Host` gives the value view of a player and an item, and the actions the plugin asks the
  server to perform: disable the player, switch combat off, clear a buff, send a message.
- `Checks` holds the individual rule checks and the derivation of the prefix tables.
- `Enforcement` holds the cooldown-gated penalty and warning protocol.
- `BanLists` holds the add/remove edit the sub-commands apply to a ban list.
- `Lookup` resolves an item or buff named in a command.
- `Commands` parses the sub-command word.
- `Collections` holds the LINQ operations the plugin uses (`Distinct`, `Where`,
  `List.Remove`) as functions with their properties.
- `Messages` names the message-table keys.

Each plugin version is a `class Plugin`. Its fields are the loaded configuration, the three
derived illegal-prefix tables, the map of last-warning times, and an outbox of actions sent
to the server. Each hook is a method proved against specification functions:

- `Detect` is the ordered list of infringements, with their evidence.
- `Enforce` is the penalty and warning step.
- `Message` is the rendered warning.

The loops of the source are methods that are proved equal to those functions:

- the walk through the checks;
- the message builder;
- the body-armour scan;
- the loop that clears buffs.

Two rule checks of the code do not do what their comments say, and one guard in each version
dereferences a null item (see Findings). The model keeps each rule as written and states what goes wrong,
and its report functions (`Detect`, `Evaluate` and the methods proved against them) use the
corrected rule:

- The duplicate-buff rule counts empty buff slots as repeats. The corrected rule
  `Checks.DuplicateBuff` ignores empty slots.
- The duplicate-accessory rule applies `Distinct` to the `Item` objects of the armour slots.
  Assuming `Item` does not override equality, objects are compared by reference, and every
  slot holds an object of its own: the rule as written never fires. The as-written rule
  `Checks.DuplicateArmourAsWritten` takes the slots' object references as a parameter. The
  corrected rule `Checks.DuplicateArmour` compares non-empty item IDs.
- The prefixed-ammunition guard reads the selected item with no null test. The corrected
  guard `Checks.PrefixedAmmoGuard` skips the check when nothing is selected.

Each version's handler as written is `DetectAsWritten`. Where the code throws, it returns no
report; the older version's result still records the buffs stripped before the throw.
`DetectAsWrittenAgrees` states when it reports what `Detect` reports.

A message whose template the loaded record lacks makes the code throw at the lookup. The
model treats that throw as the end of the hook: what the hook did before it stays done, and
nothing after it happens (`Host.Deliver`, `Enforcement.Enforce`,
`LegacyPvPChecks.Plugin.StripBuffs`).

## Model

| member | source | states |
|---|---|---|
| Collections.Distinct | PvPChecks/Main.cs:191 | the de-duplicated sequence has no repeats, keeps exactly the elements of its input, and is no longer than it |
| Collections.DistinctKeepsLengthIff | PvPChecks/Main.cs:263 | `Count() != Distinct().Count()` holds exactly when the sequence has a repeated element |
| Collections.Filter | PvPChecks/Main.cs:196 | `Where` keeps only elements satisfying the predicate, keeps every such element, and adds nothing |
| Collections.FilterCounts | Main.cs:157 | `Where` keeps each element satisfying the predicate exactly as often as the input holds it, and drops every other element |
| Collections.FilterAppend | PvPChecks/Main.cs:196 | `Where` keeps order: filtering a concatenation filters each part in turn |
| Collections.FilterKeepsNoDuplicates | PvPChecks/Main.cs:196 | filtering a repeat-free sequence leaves it repeat-free |
| Collections.DistinctOfNoDuplicates | PvPChecks/Main.cs:196 | `Distinct` leaves a sequence without repeats exactly as it was, order included |
| Collections.FilterNoDuplicatesIff | Main.cs:157 | the filtered sequence is repeat-free exactly when no kept element occurs twice in the input |
| Collections.RemoveFirst | PvPChecks/Main.cs:423 | `List.Remove` leaves the list unchanged when the element is absent, else removes exactly one occurrence |
| Collections.RemoveFirstOfAppended | PvPChecks/Main.cs:421-423 | removing an element that was just appended to a list not containing it restores the list |
| Collections.RemoveFirstKeepsNoDuplicates | PvPChecks/Main.cs:423 | removal from a repeat-free list keeps it repeat-free and removes the element entirely |
| Collections.RemoveFirstKeepsOrder | PvPChecks/Main.cs:423 | removal cuts the list at the first occurrence of the element and keeps the other elements in their order |
| Host.Selected | PvPChecks/Main.cs:203 | the checked item is the selected item, falling back to the item in hand only when nothing is selected |
| Host.Deliver | PvPChecks/Main.cs:361 | a message reaches the server only when the loaded table holds every template it uses; a missing template sends nothing |
| Commands.ParseSubcommand | PvPChecks/Main.cs:369-396 | a missing first argument is unknown, and an edit sub-command is an add exactly when its word starts with `a` |
| Commands.ParseSubcommandNames | PvPChecks/Main.cs:369-649 | each sub-command is chosen by exactly the words listed for it in the switch |
| Lookup.SingleMatch | PvPChecks/Main.cs:661-677 | a name lookup succeeds exactly when one item matches, and otherwise reports no match or several matches |
| Lookup.BuffFromString | PvPChecks/Main.cs:686-715 | a numeric argument is accepted exactly when it lies in 1..337 and is taken as the buff ID; a name goes through the single-match lookup |
| Lookup.NumericBuffRange | PvPChecks/Main.cs:707-714 | an accepted numeric buff ID is always within range and does not depend on the name matches |
| Lookup.BuffRangeBoundaries | PvPChecks/Main.cs:708 | 0 and 338 are rejected, 1 and 337 accepted |
| Checks.BannedSelection | PvPChecks/Main.cs:208-209 | the selected item is reported exactly when it exists and its ID is banned |
| Checks.BannedItemEvidence | PvPChecks/Main.cs:206-222 | the reported items are exactly the banned ones among the selected item, misc equipment and armour, the selected item first |
| Checks.BannedItemEvidenceEmptyIff | PvPChecks/Main.cs:206-222 | no item is reported exactly when none of the selected item, misc equipment or armour is banned |
| Checks.BannedBuffEvidence | PvPChecks/Main.cs:196 | the reported buffs are exactly the active banned buffs, each once |
| Checks.BannedBuffEvidenceSnoc | PvPChecks/Main.cs:196 | the reported buffs are in order of first appearance: one more slot adds its buff at the end exactly when it is banned and not held before |
| Checks.BannedBuffSlots | Main.cs:157 | the older version collects the active buff slots holding a banned buff: each banned buff exactly as often as the slots hold it, repeats included, and nothing else |
| Checks.DuplicateBuffCountsEmptySlots | PvPChecks/Main.cs:191-192 | the check as written flags `[5, 0, 0]`, which has no repeated active buff |
| Checks.DuplicateBuffIff | PvPChecks/Main.cs:191-192 | the corrected check fires exactly when two slots hold the same non-empty buff |
| Checks.DuplicateBuffAgreesWithoutEmptySlots | PvPChecks/Main.cs:191 | with no empty slots the corrected and the as-written checks agree |
| Checks.DeriveIllegal | PvPChecks/Main.cs:74-81 | a prefix is illegal for a class exactly when it is native to one of the other two classes |
| Checks.DerivedTablesExcludeNative | PvPChecks/Main.cs:74-81 | with disjoint class tables, no class's own prefix is illegal for it |
| Checks.IllegallyPrefixedByNativeTables | PvPChecks/Main.cs:226-238 | an item is illegally prefixed exactly when it is a prefixed stackable or its class flags meet a prefix native to another class |
| Checks.NativePrefixIsLegal | PvPChecks/Main.cs:229-232 | a non-stackable melee weapon with a melee prefix is never flagged |
| Checks.ForeignPrefixIsIllegal | PvPChecks/Main.cs:231 | a ranged weapon carrying a melee prefix is always flagged |
| Checks.UniversalPrefixIsLegal | PvPChecks/Main.cs:226-238 | a non-stackable item whose prefix belongs to no class table is never flagged |
| Checks.HasPrefixedAmmoIff | PvPChecks/Main.cs:243-244 | the ammo rule fires exactly when some inventory item is listed ammunition with a non-zero prefix |
| Checks.PrefixedAmmoGuardAsWritten | PvPChecks/Main.cs:241 | the guard as written dereferences the selected item whenever the check is on, failing exactly when nothing is selected |
| Checks.PrefixedAmmoGuardDereferencesNull | PvPChecks/Main.cs:241 | an enabled check with no selected item reaches the null dereference |
| Checks.PrefixedAmmoGuardAgrees | PvPChecks/Main.cs:241 | the null-safe guard agrees with the source wherever the source does not fail |
| Checks.ScanBodyArmour | PvPChecks/Main.cs:252-259 | the loop reports exactly whether one of the three body-armour slots carries a prefix |
| Checks.DuplicateArmourAsWrittenIff | PvPChecks/Main.cs:263 | as written, the duplication rule fires exactly when two armour slots hold the same `Item` object |
| Checks.SeparateSlotsNeverDuplicate | PvPChecks/Main.cs:262-267 | with a separate object in every slot, the rule as written never fires, whatever is worn |
| Checks.DuplicateArmourIff | PvPChecks/Main.cs:262-267 | the corrected rule fires exactly when two non-empty armour slots hold the same item ID |
| Checks.SameAccessoryTwiceFlagged | PvPChecks/Main.cs:262-267 | the corrected rule flags the same accessory worn in two slots |
| Checks.EmptySlotsCollideByItemID | PvPChecks/Main.cs:263 | had slots been compared by item ID, any two empty slots would already make the counts differ |
| BanLists.Edit | PvPChecks/Main.cs:409-423 | add is refused exactly when the entry is present, remove exactly when it is absent; otherwise add appends and remove drops one occurrence |
| BanLists.EditKeepsNoDuplicates | PvPChecks/Main.cs:409-423 | edits keep a ban list repeat-free, and afterwards the entry is listed exactly when it was added |
| BanLists.AddThenRemove | PvPChecks/Main.cs:409-423 | adding a new entry and then removing it restores the list |
| BanLists.AddTwiceRefused | PvPChecks/Main.cs:409-412 | a second add of the same entry is refused |
| BanLists.RemoveTwiceRefused | PvPChecks/Main.cs:415-418 | a second remove of the same entry is refused |
| BanLists.RemoveThenAdd | PvPChecks/Main.cs:409-423 | removing a listed entry and adding it back keeps the same entries |
| BanLists.EditReply | PvPChecks/Main.cs:409-426 | the sender gets one reply, a success exactly when the list changed, naming the added or removed template |
| Enforcement.Enforce | PvPChecks/Main.cs:276-335 | the player is always disabled first and combat forced off exactly when configured; within the cooldown, or when a template of the warning is missing, nothing is sent and no time is recorded; otherwise exactly one warning is sent, last, and the time recorded rounded down to the second; the action count is exact |
| Enforcement.Stamp | PvPChecks/Main.cs:334 | the recorded time is the current time rounded down to a whole second, at most 999 ms earlier |
| Enforcement.RepeatWithinDelayIsSilent | PvPChecks/Main.cs:284-288 | a second offence before the delay has passed since the recorded, rounded-down time is penalised but not warned, and the recorded time stays |
| Enforcement.WarnsAgainAfterDelay | PvPChecks/Main.cs:284-335 | a second offence once the delay has passed since the recorded time is warned again, and its own rounded time recorded |
| Enforcement.FirstOffenceWarns | PvPChecks/Main.cs:284-335 | a player never warned before is warned at once when the warning can be rendered, and no other player's time changes |
| Enforcement.MissingTemplateNeverWarns | PvPChecks/Main.cs:284-290 | when the warning's template is missing, each offence disables the player again and none warns or records a time |
| PvPConfiguration.DefaultToggles | PvPChecks/Configuration.cs:11-22 | a fresh record checks items, prefixes and duplicates only, never forces combat off, announces restricted regions and warns at most every 10 seconds |
| PvPConfiguration.DefaultBannedBuffsDistinct | PvPChecks/Configuration.cs:25 | the default banned-buff list has 21 distinct entries |
| PvPConfiguration.DefaultBanLists | PvPChecks/Configuration.cs:24-28 | a fresh record starts with the default buff list and empty item, projectile and region lists |
| PvPConfiguration.AmmoGroupsDistinct | PvPChecks/Configuration.cs:30-42 | every ammunition group lists each ID once |
| PvPConfiguration.BulletIDsDisjoint | PvPChecks/Configuration.cs:30-42 | bullets share no ID with the other ammunition groups |
| PvPConfiguration.OtherAmmoGroupsDisjoint | PvPChecks/Configuration.cs:30-42 | arrows, rockets, darts and the rest share no ID |
| PvPConfiguration.AmmoIDsDistinct | PvPChecks/Configuration.cs:30-42 | the ammunition table lists each ID once |
| PvPConfiguration.DefaultClassTablesDisjoint | PvPChecks/Configuration.cs:55-68 | no prefix is native to two weapon classes, so the derived tables never ban a native prefix |
| PvPConfiguration.DefaultMessagesKeys | PvPChecks/Configuration.cs:71-126 | the default message table defines exactly the listed keys |
| PvPConfiguration.InfringementDefines | PvPChecks/Configuration.cs:116-124 | the header and every infringement key are among the listed keys |
| PvPConfiguration.InfringementTemplatesDefined | PvPChecks/Configuration.cs:116-124 | the header and every infringement template are in the default message table |
| PvPConfiguration.BuffNoticeTemplateMissing | PvPChecks/Configuration.cs:71-126 | the default table lacks the `BannedBuffs` key that the combat-on notice looks up |
| LegacyConfiguration.DefaultListsEmpty | Configuration.cs:10-55 | a fresh older record starts with every ban list, the combat buff list and the region list empty |
| LegacyConfiguration.DefaultMessagesKeys | Configuration.cs:57-114 | the older default message table defines exactly the listed keys |
| LegacyConfiguration.MissingDefines | Configuration.cs:57-114 | nine keys the older code looks up are not among the listed keys |
| LegacyConfiguration.MissingMessageKeys | Configuration.cs:57-114 | the older default table lacks the header, banned-item, buff-notice, no-permission, region and projectile-edit keys the older code looks up |
| PvPChecks.ThenStep | PvPChecks/Main.cs:173-274 | appending a stage's infringement keeps the list below the next stage |
| PvPChecks.BuffAndItemStagesOrdered | PvPChecks/Main.cs:188-223 | the buff and item stages produce infringements in stage order |
| PvPChecks.PipelineOrdered | PvPChecks/Main.cs:173-274 | the infringement list is in pipeline order, each kind at most once |
| PvPChecks.InThen | PvPChecks/Main.cs:173-274 | a stage adds its infringement exactly when its rule is raised |
| PvPChecks.BuffAndItemStagesMembers | PvPChecks/Main.cs:188-223 | the buff and item stages hold exactly the raised kinds among their four |
| PvPChecks.PipelineMembers | PvPChecks/Main.cs:173-274 | an infringement is listed exactly when its rule is raised |
| PvPChecks.Detect | PvPChecks/Main.cs:158-274 | nothing is reported outside the gate; otherwise the infringements are in order, are exactly the raised rules, and carry exactly the banned items and the distinct banned buffs |
| PvPChecks.ExemptPlayersNotReported | PvPChecks/Main.cs:162-168 | a player not in combat, or holding the use-all permission, is never reported |
| PvPChecks.UnrestrictedRegionNotReported | PvPChecks/Main.cs:176-184 | with region checking on, a player outside every restricted region is never reported |
| PvPChecks.InfringementsDistinct | PvPChecks/Main.cs:173-274 | no infringement kind is reported twice in one update |
| PvPChecks.DetectAsWritten | PvPChecks/Main.cs:158-274 | the collection phase as written throws exactly when a player past the gate has nothing selected while the ammunition check applies; otherwise its infringements are in order and are exactly the as-written rules raised |
| PvPChecks.DetectAsWrittenAgrees | PvPChecks/Main.cs:189-267 | with no empty buff slot and something selected, the handler as written reports what the corrected one reports, apart from the duplication rule, with the same evidence, and the same report where the two duplication rules agree |
| PvPChecks.EmptyBuffSlotsReportedAsWritten | PvPChecks/Main.cs:189-193 | a player with buff slots `[5, 0, 0]` is reported for a duplicate buff by the handler as written and not by the corrected one |
| PvPChecks.DuplicationNeverReportedAsWritten | PvPChecks/Main.cs:261-267 | with a separate object per slot the handler as written never reports duplication, while the corrected one reports two slots wearing the same item |
| PvPChecks.CheckBuffsAndItems | PvPChecks/Main.cs:188-223 | the buff and item checks produce the first four pipeline stages and exactly the banned items and buffs |
| PvPChecks.CheckEquipment | PvPChecks/Main.cs:226-274 | the prefix, ammunition, armour, duplication and seventh-slot checks extend the list with exactly the remaining raised stages |
| PvPChecks.CollectInfringements | PvPChecks/Main.cs:158-274 | the update handler's checks compute exactly the specified report |
| PvPChecks.Lines | PvPChecks/Main.cs:292-332 | one line per infringement, in order, the i-th being the line of the i-th infringement with its own template and, for banned items and buffs, the reported items and buffs |
| PvPChecks.Message | PvPChecks/Main.cs:290-332 | the warning is the header followed by the line of each infringement, in order, with its evidence |
| PvPChecks.LinesSnoc | PvPChecks/Main.cs:292-332 | rendering one more infringement appends exactly its line |
| PvPChecks.RenderLine | PvPChecks/Main.cs:294-331 | the switch renders the line that infringement's template defines |
| PvPChecks.BuildMessage | PvPChecks/Main.cs:290-332 | the message-building loop produces exactly the specified warning |
| PvPChecks.MessageLinesDistinct | PvPChecks/Main.cs:292-332 | for an ordered report, no template line appears twice in the warning |
| PvPChecks.MessageKeysDefined | PvPChecks/Main.cs:290-330 | every key the warning uses is among the default record's listed keys |
| PvPChecks.TemplateKeyDefined | PvPChecks/Main.cs:296-329 | every infringement's template key is among the default record's listed keys |
| PvPChecks.MessageTemplatesDefined | PvPChecks/Main.cs:290-330 | with the default record, every lookup the warning makes succeeds |
| PvPChecks.DefaultRecordRenders | PvPChecks/Configuration.cs:71-126 | the default record renders every warning, but drops the combat-on notice, whose template it lacks |
| PvPChecks.Plugin.constructor | PvPChecks/Main.cs:23-36 | a new plugin has empty illegal-prefix tables, no warnings and nothing sent; its record is the default one in place of the source's null (see Left out) |
| PvPChecks.Plugin.OnInit | PvPChecks/Main.cs:69-84 | loads the record and appends to each class's illegal table the other two classes' native prefixes, which from empty tables gives exactly the derived tables |
| PvPChecks.Plugin.OnReload | PvPChecks/Main.cs:147-151 | replaces the record, keeps the derived tables and warning times, and confirms to the requesting player only |
| PvPChecks.Plugin.Punish | PvPChecks/Main.cs:276-336 | the outbox and warning times advance exactly as the enforcement step prescribes for the rendered warning and the loaded templates |
| PvPChecks.Plugin.OnPlayerUpdate | PvPChecks/Main.cs:158-338 | an unknown player changes nothing; otherwise the player is punished exactly when the report is non-empty, with the warning cooldown and template check of the enforcement step, and the record and tables never change |
| PvPChecks.Plugin.OnRegionEntered | PvPChecks/Main.cs:130-145 | the region notice is sent exactly when the notice is enabled and the player enters a restricted region without exemption; a notice whose template is missing is not sent |
| PvPChecks.Plugin.OnTogglePvPOn | PvPChecks/Main.cs:345-364 | the banned-buff notice is sent exactly when buff checking applies to the player in their current region; a notice whose template is missing is not sent |
| PvPChecks.Plugin.EditBannedItems | PvPChecks/Main.cs:385-429 | without permission, with the wrong argument count, or with zero or several matches, the list is unchanged and the error is sent; otherwise the list is edited and the reply reports the outcome; an edit stays made when its reply's template is missing, and that reply is not sent |
| PvPChecks.Plugin.EditBannedProjectiles | PvPChecks/Main.cs:433-475 | the same protocol for the projectile list, keyed by the numeric projectile ID; an edit stays made when its reply's template is missing, and that reply is not sent |
| PvPChecks.Plugin.EditRestrictedRegions | PvPChecks/Main.cs:479-528 | the same protocol for the region list; an unknown region name is refused with the no-such-region reply; an edit stays made when its reply's template is missing, and that reply is not sent |
| PvPChecks.Plugin.EditBannedBuffs | PvPChecks/Main.cs:532-580 | the same protocol for the buff list; an out-of-range number or an unmatched name leaves the list unchanged; an edit stays made when its reply's template is missing, and that reply is not sent |
| LegacyPvPChecks.ThenStep | Main.cs:141-245 | appending a stage's infringement keeps the list below the next stage |
| LegacyPvPChecks.ItemAndPrefixStagesOrdered | Main.cs:174-220 | the item and prefix stages produce infringements in stage order |
| LegacyPvPChecks.PipelineOrdered | Main.cs:141-245 | the older infringement list is in pipeline order |
| LegacyPvPChecks.InThen | Main.cs:141-245 | a stage adds its infringement exactly when its rule is raised |
| LegacyPvPChecks.PipelineMembers | Main.cs:141-245 | an infringement is listed exactly when its rule is raised |
| LegacyPvPChecks.Detect | Main.cs:127-245 | nothing happens outside the gate; otherwise the infringements are in order and exactly the raised rules, and the stripped buffs are every banned buff slot |
| LegacyPvPChecks.BannedBuffNeverReported | Main.cs:159-171 | the older version never reports a banned buff as an infringement |
| LegacyPvPChecks.StrippedBuffsKeepRepeats | Main.cs:157 | any banned buff active in two slots is cleared once per slot in the older version, while the newer version names it exactly once |
| LegacyPvPChecks.ExemptPlayersUntouched | Main.cs:131-137 | a player not in combat, or holding the use-all permission, is neither reported nor stripped |
| LegacyPvPChecks.CheckItems | Main.cs:177-194 | the item check produces the first stage and exactly the banned items |
| LegacyPvPChecks.CheckEquipment | Main.cs:197-245 | the remaining checks extend the list with exactly the remaining raised stages |
| LegacyPvPChecks.CollectInfringements | Main.cs:127-245 | the older update handler's checks compute exactly the specified report |
| LegacyPvPChecks.DetectAsWritten | Main.cs:127-245 | the collection phase as written throws exactly when a player past the gate has nothing selected while the ammunition check applies, and it has then already stripped the same buffs as the corrected handler; otherwise its infringements are in order, are exactly the as-written rules raised, and the stripped buffs are the same |
| LegacyPvPChecks.DetectAsWrittenAgrees | Main.cs:174-245 | with something selected, the handler as written reports what the corrected one reports, apart from the duplication rule, and the same report where the two duplication rules agree |
| LegacyPvPChecks.UnselectedPlayerThrowsAsWritten | Main.cs:211-230 | with nothing selected and the ammunition check on, the handler as written throws, while the corrected one skips that check and still reports prefixed body armour |
| LegacyPvPChecks.DuplicationNeverReportedAsWritten | Main.cs:232-238 | with a separate object per slot the handler as written never reports duplication, while the corrected one reports two slots wearing the same item |
| LegacyPvPChecks.Lines | Main.cs:263-297 | one line per infringement other than BannedBuff, in order, the i-th being the line of the i-th such infringement with its own template and evidence |
| LegacyPvPChecks.Message | Main.cs:261-297 | the warning is the header followed by the line of each infringement other than BannedBuff, in order |
| LegacyPvPChecks.Rendered | Main.cs:263-297 | the infringements that add a line are all but BannedBuff, in their order |
| LegacyPvPChecks.BannedBuffRendersNothing | Main.cs:273-275 | a banned-buff infringement adds no line to the older warning |
| LegacyPvPChecks.MessageLength | Main.cs:261-297 | for every detected report the warning has the header plus one line per infringement |
| LegacyPvPChecks.LinesSnoc | Main.cs:263-297 | rendering one more infringement appends exactly its lines |
| LegacyPvPChecks.RenderLine | Main.cs:265-296 | the switch renders the lines that infringement's case defines |
| LegacyPvPChecks.BuildMessage | Main.cs:261-297 | the message-building loop produces exactly the specified warning |
| LegacyPvPChecks.ClearBuffs | Main.cs:170 | one clear-buff action per banned slot, in slot order |
| LegacyPvPChecks.ClearBuffsSnoc | Main.cs:170 | clearing one more slot appends exactly its action |
| LegacyPvPChecks.Plugin.constructor | Main.cs:23-36 | a new plugin has the given toggles, empty tables, no warnings and nothing sent; its record is the default one in place of the source's null (see Left out) |
| LegacyPvPChecks.Plugin.OnInit | Main.cs:68-82 | loads the record and appends the other classes' native prefixes to each illegal table |
| LegacyPvPChecks.Plugin.OnReload | Main.cs:121-125 | replaces the record, keeps the tables and warning times, and confirms to the requester only |
| LegacyPvPChecks.Plugin.StripBuffs | Main.cs:159-171 | when banned buffs are active and the notice template is present, sends the notice and then clears every banned slot; with the template missing, sends and clears nothing and stops the handler; with no banned buff, sends nothing |
| LegacyPvPChecks.Plugin.ClearSlots | Main.cs:170 | the loop emits exactly one clear-buff action per banned slot |
| LegacyPvPChecks.Plugin.Punish | Main.cs:247-302 | the outbox and warning times advance exactly as the enforcement step prescribes for the rendered warning and the loaded templates |
| LegacyPvPChecks.Plugin.OnPlayerUpdate | Main.cs:127-303 | an unknown player changes nothing; otherwise banned buffs are stripped first, and when the buff notice cannot be rendered nothing at all happens; else the player is punished exactly when the report lists infringements |
| LegacyPvPChecks.DefaultRecordNeverWarns | Configuration.cs:57-114 | a fresh older record can never send a warning or strip a buff, because it lacks both templates |
| LegacyPvPChecks.Plugin.OnRegionEntered | Main.cs:104-119 | the region notice is sent exactly when enabled and the player enters a restricted region without exemption; a notice whose template is missing is not sent |
| LegacyPvPChecks.Plugin.EditBannedItems | Main.cs:323-367 | the permission, syntax, lookup and edit protocol of the item sub-command; an edit stays made when its reply's template is missing, and that reply is not sent |
| LegacyPvPChecks.Plugin.EditBannedProjectiles | Main.cs:371-413 | the same protocol for the projectile list; an edit stays made when its reply's template is missing, and that reply is not sent |
| LegacyPvPChecks.Plugin.EditRestrictedRegions | Main.cs:417-466 | the same protocol for the region list; an edit stays made when its reply's template is missing, and that reply is not sent |
| LegacyPvPChecks.Plugin.EditBannedBuffs | Main.cs:470-518 | a non-numeric argument is refused as an invalid buff type; any integer is otherwise taken as the buff ID, without a range check, and the list is edited accordingly; an edit stays made when its reply's template is missing, and that reply is not sent |
| LegacyPvPChecks.OutOfRangeBuffAccepted | Main.cs:489-516 | the older version adds buff ID 338, which the newer lookup rejects |

## Left out

- Plugin registration, hook wiring, `Initialize`, `Dispose` and `OnSave`: these are server plumbing. The hooks appear as methods that the server would call.
- `Configuration.Read` and `Configuration.Write`: file I/O. `OnInit` and `OnReload` take the loaded record as a parameter.
- `OnGetData`: packet decoding. The newer version's combat-on handler is `OnTogglePvPOn`, which takes the player. `OnTogglePvPOn` is called only from `OnGetData`, and `OnGetData` is never registered (its registration is commented out at PvPChecks/Main.cs:42), so the newer plugin as shipped never sends that notice.
- The `help` and `list` sub-commands and the default reply: they only format text from the message table and server name lookups. The model covers their dispatch in `Commands.ParseSubcommand`.
- TShock lookups (players by index, items and buffs by name, regions by name) and permission resolution: these are server calls. Their results are parameters: a player option, a list of matches, a region option, and a permission set.
- Terraria's `Item` class is not part of this model. `Checks.DuplicateArmourAsWritten` assumes that it does not override `Equals`, and it takes one object reference per armour slot as the parameter `armorRefs`.
- `DateTime.UtcNow`: time is an integer number of milliseconds passed in as `now`. The stored time goes through `ToString` and `DateTime.Parse`. The model captures only the effect of that round trip, which rounds the time down to a whole second (`Enforcement.Stamp`). Time zones and culture-specific formats are not modelled.
- Message text: a line is modelled as a template key plus its evidence (items, buffs, projectiles, regions or an argument). String formatting and buff names are not modelled.
- `Int32.Parse` in the projectile sub-commands throws on non-numeric input. The model takes the parsed integer, so that exception path is not modelled.
- A lookup of a key the loaded message table lacks throws `KeyNotFoundException`. The model treats the throw as the end of the hook, without modelling the exception itself: a message with a missing template is not sent (`Host.Deliver`), and nothing after it happens (`Enforcement.Enforce`, `LegacyPvPChecks.Plugin.StripBuffs`). `PvPConfiguration.BuffNoticeTemplateMissing` and `LegacyConfiguration.MissingMessageKeys` state which keys the default records lack.
- The older version reads eight flags and the message delay that its `Configuration.cs` does not declare. The flags are the region, buff, item, prefix, duplicate and seventh-slot checks, the disable-combat flag and the restricted-region notice flag. These are modelled as a separate `LegacyPvPChecks.Toggles` parameter.
- Player slot arrays are sequences. `Host.WellFormed` requires the ten armour slots that the source indexes without a check.
- PvPChecks.Evaluate uses the corrected duplicate-buff, duplicate-armour and ammunition-guard checks (see Findings); the handler as written is `PvPChecks.DetectAsWritten`.
- PvPChecks.Detect reports with the corrected checks; the handler as written is `PvPChecks.DetectAsWritten`.
- PvPChecks.CheckBuffsAndItems uses the corrected duplicate-buff check; the handler as written is `PvPChecks.DetectAsWritten`.
- PvPChecks.CheckEquipment uses the corrected duplicate-armour check and ammunition guard; the handler as written is `PvPChecks.DetectAsWritten`.
- PvPChecks.CollectInfringements computes the corrected report; the handler as written is `PvPChecks.DetectAsWritten`.
- PvPChecks.Plugin.OnPlayerUpdate punishes on the corrected report; the handler as written is `PvPChecks.DetectAsWritten`.
- LegacyPvPChecks.Evaluate uses the corrected duplicate-armour check and ammunition guard; the handler as written is `LegacyPvPChecks.DetectAsWritten`.
- LegacyPvPChecks.Detect reports with the corrected checks; the handler as written is `LegacyPvPChecks.DetectAsWritten`.
- LegacyPvPChecks.CheckEquipment uses the corrected duplicate-armour check and ammunition guard; the handler as written is `LegacyPvPChecks.DetectAsWritten`.
- LegacyPvPChecks.CollectInfringements computes the corrected report; the handler as written is `LegacyPvPChecks.DetectAsWritten`.
- LegacyPvPChecks.Plugin.OnPlayerUpdate punishes on the corrected report; the handler as written is `LegacyPvPChecks.DetectAsWritten`.
- PvPChecks.Plugin.constructor: the source declares `Config` without an initializer, so the record is null until `OnInit` runs on GameInitialize; a hook called before that would throw. The model starts from the default record and assumes that no hook runs before `OnInit`.
- LegacyPvPChecks.Plugin.constructor: the same null record until `OnInit`, modelled the same way.
- Warning times: the source stores the last warning time as data on the TSPlayer object, which a reconnect replaces. The model keeps it in `lastWarned`, keyed by player slot index and never cleared, so a player who takes over a slot inherits the previous occupant's cooldown.
- Concurrency between server threads is not modelled. Every hook runs to completion on its own.

## Findings

| source | as written | input that shows it | evidently intended | confidence | as-written member | corrected member |
|---|---|---|---|---|---|---|
| PvPChecks/Main.cs:191 | `buffType.Count() != buffType.Distinct().Count()` counts empty buff slots (ID 0) as repeats | buff slots `[5, 0, 0]`: one active buff, but two empty slots make the counts differ | flag a duplicate buff only when two slots hold the same non-empty buff | not executed | PvPChecks.EmptyBuffSlotsReportedAsWritten | Checks.DuplicateBuffIff |
| PvPChecks/Main.cs:241 | the ammunition check reads `selected.ranged` with no null test, while the selected item may be null | prefix checking on, player without the prefix exemption, nothing selected and nothing in hand | skip the ammunition check when no item is selected | not executed | Checks.PrefixedAmmoGuardDereferencesNull | Checks.PrefixedAmmoGuardAgrees |
| PvPChecks/Main.cs:263 | `armor.Count() != armor.Distinct().Count()` compares the slots' `Item` objects by reference, and each slot holds its own object | the same accessory in slots 3 and 4: two distinct objects, so nothing is reported | flag two slots wearing the same non-empty item | not executed | PvPChecks.DuplicationNeverReportedAsWritten | Checks.DuplicateArmourIff |
| Main.cs:234 | the same reference comparison in the older version | the same accessory in slots 3 and 4 | flag two slots wearing the same non-empty item | not executed | LegacyPvPChecks.DuplicationNeverReportedAsWritten | Checks.DuplicateArmourIff |
| Main.cs:212 | the older ammunition check reads `selected.ranged` with no null test | prefix checking on, no prefix exemption, nothing selected and nothing in hand | skip the ammunition check when no item is selected | not executed | LegacyPvPChecks.UnselectedPlayerThrowsAsWritten | Checks.PrefixedAmmoGuardAgrees |
