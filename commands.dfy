/** The pvpchecks chat command's dispatch and the shape of its answers,
    shared by both versions of the plugin. */
module Commands {
  import opened Collections
  import opened Host
  import Messages
  import Lookup

  datatype Subcommand =
    | Help
    | EditItems(add: bool)
    | EditProjectiles(add: bool)
    | EditRegions(add: bool)
    | EditBuffs(add: bool)
    | List
    | Unknown

  /** OnCommand's switch on the first parameter; an edit adds when the name
      starts with 'a'. */
  function ParseSubcommand(first: Option<string>): (s: Subcommand)
    ensures first.None? ==> s == Unknown
    ensures (s.EditItems? || s.EditProjectiles? || s.EditRegions? || s.EditBuffs?) ==>
      first.Some? && |first.value| > 0 && (s.add <==> first.value[0] == 'a')
  {
    match first
    case None => Unknown
    case Some(name) =>
      if name in ["help", "h"] then Help
      else if name in ["additem", "ai"] then EditItems(true)
      else if name in ["removeitem", "ri"] then EditItems(false)
      else if name in ["addproj", "ap"] then EditProjectiles(true)
      else if name in ["removeproj", "rp"] then EditProjectiles(false)
      else if name in ["addregion", "ar"] then EditRegions(true)
      else if name in ["removeregion", "rr"] then EditRegions(false)
      else if name in ["addbuff", "ab"] then EditBuffs(true)
      else if name in ["removebuff", "rb"] then EditBuffs(false)
      else if name in ["list", "l"] then List
      else Unknown
  }

  /** The names each case label of the switch accepts. */
  function NamesOf(s: Subcommand): seq<string> {
    match s
    case Help => ["help", "h"]
    case EditItems(add) => if add then ["additem", "ai"] else ["removeitem", "ri"]
    case EditProjectiles(add) => if add then ["addproj", "ap"] else ["removeproj", "rp"]
    case EditRegions(add) => if add then ["addregion", "ar"] else ["removeregion", "rr"]
    case EditBuffs(add) => if add then ["addbuff", "ab"] else ["removebuff", "rb"]
    case List => ["list", "l"]
    case Unknown => []
  }

  /** A name selects a subcommand exactly when it is one of that subcommand's
      case labels; every other name (and no name) falls to the default. */
  lemma ParseSubcommandNames(name: string, s: Subcommand)
    requires s != Unknown
    ensures ParseSubcommand(Some(name)) == s <==> name in NamesOf(s)
  {
  }

  /** Reply to a single error template. */
  function ErrorReply(sender: PlayerId, key: Messages.MessageKey, evidence: Evidence): Action {
    Send(sender, ErrorMessage, [Line(key, evidence)])
  }

  /** Reply to a failed lookup: the template for "no match", or the host's
      multiple-match list. */
  function LookupReply(sender: PlayerId, e: Lookup.LookupError, noMatch: Messages.MessageKey): Action {
    match e
    case NoMatch => ErrorReply(sender, noMatch, NoEvidence)
    case MultipleMatches => MultipleMatchError(sender)
  }
}
