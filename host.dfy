/** What the TShock/Terraria host hands to the plugin and what the plugin asks
    the host to do. The plugin only reads a player; it never builds one. */
module Host {
  import opened Collections
  import Messages

  /** Index of a connected player (TShock.Players[args.PlayerId]). */
  type PlayerId = int

  /** The fields of Terraria.Item the checks read. */
  datatype Item = Item(
    netID: int,
    prefix: int,
    maxStack: int,
    melee: bool,
    ranged: bool,
    magic: bool,
    summon: bool,
    dd2Summon: bool)

  /** One player's state at a PlayerUpdate event. `permissions` is the set of
      permission names TShock grants the player; `currentRegion` is the name of
      the region the player stands in, if any. */
  datatype Player = Player(
    hostile: bool,
    permissions: set<string>,
    selectedItem: Option<Item>,
    itemInHand: Option<Item>,
    inventory: seq<Item>,
    miscEquips: seq<Item>,
    armor: seq<Item>,
    buffType: seq<int>,
    currentRegion: Option<string>)

  /** Slot conventions of Player.armor: slots 0..2 are worn armour, slot 9 is
      the seventh accessory slot that normal play cannot reach. */
  const BodyArmorSlots: nat := 3
  const SeventhSlot: nat := 9
  const ArmorSlots: nat := 10

  /** The host always delivers at least the ten functional armour slots. */
  predicate WellFormed(p: Player) {
    |p.armor| >= ArmorSlots
  }

  predicate HasPermission(p: Player, name: string) {
    name in p.permissions
  }

  /** `player.SelectedItem ?? player.ItemInHand` */
  function Selected(p: Player): (r: Option<Item>)
    ensures r.None? <==> p.selectedItem.None? && p.itemInHand.None?
    ensures p.selectedItem.Some? ==> r == p.selectedItem
  {
    if p.selectedItem.Some? then p.selectedItem else p.itemInHand
  }

  /** SendInfoMessage, SendSuccessMessage, SendErrorMessage. */
  datatype Severity = InfoMessage | SuccessMessage | ErrorMessage

  /** What a message carries besides its template: the items, buff IDs,
      projectile IDs, region names or command argument formatted into it. */
  datatype Evidence =
    | NoEvidence
    | Items(items: seq<Item>)
    | Buffs(ids: seq<int>)
    | Projectiles(projectiles: seq<int>)
    | Regions(names: seq<string>)
    | Argument(text: string)

  /** One line of a message: the key of its template in Configuration.Messages
      and the evidence formatted into it. */
  datatype Line = Line(key: Messages.MessageKey, evidence: Evidence)

  /** Calls the plugin makes on a TSPlayer, in the order it makes them. */
  datatype Action =
    | Disable(player: PlayerId)
    | SetPvP(player: PlayerId, enabled: bool)
    | SetBuff(player: PlayerId, buff: int, time: int)
    | Send(player: PlayerId, severity: Severity, lines: seq<Line>)
    | MultipleMatchError(player: PlayerId)
    | ReloadConfirmed(player: PlayerId)

  /** Every template the lines use is in the record's Messages table. */
  predicate Renders(lines: seq<Line>, messages: map<Messages.MessageKey, string>) {
    forall i :: 0 <= i < |lines| ==> lines[i].key in messages
  }

  /** What reaches the host when the plugin sends `a` with the record's
      Messages table: looking up a template the table lacks throws
      KeyNotFoundException before the message is sent. */
  function Deliver(a: Action, messages: map<Messages.MessageKey, string>): (r: seq<Action>)
    ensures r == [] || r == [a]
    ensures r == [a] <==> !a.Send? || Renders(a.lines, messages)
  {
    if a.Send? && !Renders(a.lines, messages) then [] else [a]
  }
}
