/** The add/remove rule every ban-list command follows (banned items,
    projectiles, restricted regions, banned buffs): adding a present entry and
    removing an absent one are refused and leave the list alone; otherwise
    List.Add appends the entry or List.Remove drops its first occurrence. */
module BanLists {
  import opened Collections
  import opened Host
  import Messages

  datatype EditOutcome<T> = Edited(list: seq<T>) | AlreadyPresent | NotPresent

  function Edit<T(==)>(list: seq<T>, x: T, add: bool): (r: EditOutcome<T>)
    ensures r == AlreadyPresent <==> add && x in list
    ensures r == NotPresent <==> !add && x !in list
    ensures r.Edited? && add ==> r.list == list + [x]
    ensures r.Edited? && !add ==> |r.list| == |list| - 1 && multiset(r.list) == multiset(list) - multiset{x}
  {
    if add && x in list then AlreadyPresent
    else if !add && x !in list then NotPresent
    else if add then Edited(list + [x])
    else Edited(RemoveFirst(list, x))
  }

  /** A successful edit leaves the entry present after an add and, on a list
      without repeats, absent after a remove; the list stays free of repeats. */
  lemma EditKeepsNoDuplicates<T>(list: seq<T>, x: T, add: bool)
    requires NoDuplicates(list)
    ensures Edit(list, x, add).Edited? ==> NoDuplicates(Edit(list, x, add).list)
    ensures Edit(list, x, add).Edited? ==> (x in Edit(list, x, add).list <==> add)
  {
    if add && x !in list {
      forall i, j | 0 <= i < j < |list + [x]| ensures (list + [x])[i] != (list + [x])[j] {
        if j == |list| { assert (list + [x])[i] == list[i]; }
        else { assert (list + [x])[i] == list[i] && (list + [x])[j] == list[j]; }
      }
      assert (list + [x])[|list|] == x;
    } else if !add && x in list {
      RemoveFirstKeepsNoDuplicates(list, x);
    }
  }

  /** Adding an entry and then removing it gives back the original list. */
  lemma AddThenRemove<T>(list: seq<T>, x: T)
    requires x !in list
    ensures Edit(list, x, true) == Edited(list + [x])
    ensures Edit(list + [x], x, false) == Edited(list)
  {
    assert (list + [x])[|list|] == x;
    RemoveFirstOfAppended(list, x);
  }

  /** A second add of the same entry is refused. */
  lemma AddTwiceRefused<T>(list: seq<T>, x: T)
    requires Edit(list, x, true).Edited?
    ensures Edit(Edit(list, x, true).list, x, true) == AlreadyPresent
  {
    assert (list + [x])[|list|] == x;
  }

  /** On a list without repeats, a second remove of the same entry is refused. */
  lemma RemoveTwiceRefused<T>(list: seq<T>, x: T)
    requires NoDuplicates(list)
    requires Edit(list, x, false).Edited?
    ensures Edit(Edit(list, x, false).list, x, false) == NotPresent
  {
    RemoveFirstKeepsNoDuplicates(list, x);
  }

  /** Removing an entry and adding it back keeps the same entries, now with
      that entry last. */
  lemma RemoveThenAdd<T>(list: seq<T>, x: T)
    requires NoDuplicates(list) && x in list
    ensures var l := Edit(list, x, false).list;
      Edit(l, x, true).Edited? && multiset(Edit(l, x, true).list) == multiset(list)
  {
    RemoveFirstKeepsNoDuplicates(list, x);
    var l := RemoveFirst(list, x);
    assert multiset(l + [x]) == multiset(l) + multiset{x};
  }

  /** The templates one list's add/remove command answers with. */
  datatype EditMessages = EditMessages(
    invalidSyntax: Messages.MessageKey,
    alreadyExists: Messages.MessageKey,
    notExist: Messages.MessageKey,
    added: Messages.MessageKey,
    removed: Messages.MessageKey)

  const ItemMessages: EditMessages := EditMessages(Messages.InvalidSyntaxAddDelItem,
    Messages.ItemAddAlreadyExists, Messages.ItemRemoveNotExist, Messages.SuccessAddItem, Messages.SuccessDelItem)
  const ProjectileMessages: EditMessages := EditMessages(Messages.InvalidSyntaxAddDelProjectile,
    Messages.ProjectileAddAlreadyExists, Messages.ProjectileRemoveNotExist,
    Messages.SuccessAddProjectile, Messages.SuccessDelProjectile)
  const RegionMessages: EditMessages := EditMessages(Messages.InvalidSyntaxAddDelRegion,
    Messages.RegionAddAlreadyExists, Messages.RegionRemoveNotExist, Messages.SuccessAddRegion, Messages.SuccessDelRegion)
  const BuffMessages: EditMessages := EditMessages(Messages.InvalidSyntaxAddDelBuff,
    Messages.BuffAddAlreadyExist, Messages.BuffRemoveNotExist, Messages.SuccessAddBuff, Messages.SuccessDelBuff)

  /** The answer to an edit: an error naming the refusal, or a success naming
      the direction of the change. */
  function EditReply<T>(sender: PlayerId, outcome: EditOutcome<T>, add: bool, keys: EditMessages, evidence: Evidence): (a: Action)
    ensures a.Send? && a.player == sender && |a.lines| == 1 && a.lines[0].evidence == evidence
    ensures a.severity == SuccessMessage <==> outcome.Edited?
    ensures outcome.Edited? ==> a.lines[0].key == (if add then keys.added else keys.removed)
  {
    match outcome
    case AlreadyPresent => Send(sender, ErrorMessage, [Line(keys.alreadyExists, evidence)])
    case NotPresent => Send(sender, ErrorMessage, [Line(keys.notExist, evidence)])
    case Edited(_) => Send(sender, SuccessMessage, [Line(if add then keys.added else keys.removed, evidence)])
  }
}
