/** Employees (employee.py): an actor's identity, its contacts, the files it
    can see, its mailbox, its action history, its scripted reactions and its
    instructions. */
module Employees {
  import opened Wrappers
  import opened Text
  import opened Actions
  import opened Mail
  import opened FileSystem

  /** `contacts_map`: a dictionary from ids to contacts that remembers the
      order in which ids were inserted. */
  datatype ContactBook<T> = ContactBook(order: seq<int>, entries: map<int, T>)
  {
    /** Every key appears exactly once in the insertion order. */
    ghost predicate Valid()
    {
      && (forall i, j :: 0 <= i < j < |order| ==> order[i] != order[j])
      && (forall i :: 0 <= i < |order| ==> order[i] in entries)
      && (forall k :: k in entries ==> k in order)
    }

    /** Maps `id` to `contact` unless `id` is already mapped. */
    function Add(id: int, contact: T): (r: ContactBook<T>)
      ensures r.entries.Keys == entries.Keys + {id}
      ensures forall k :: k in entries ==> r.entries[k] == entries[k]
      ensures id !in entries ==> r.entries[id] == contact && r.order == order + [id]
      ensures id in entries ==> r.order == order
      ensures Valid() ==> r.Valid()
    {
      if id in entries then this else ContactBook(order + [id], entries[id := contact])
    }

    /** `contacts`: the mapped contacts in insertion order, one per id. */
    function Values(): (r: seq<T>)
      requires Valid()
      ensures |r| == |order|
      ensures forall i :: 0 <= i < |order| ==> r[i] == entries[order[i]]
    {
      seq(|order|, i requires 0 <= i < |order| => entries[order[i]])
    }
  }

  /** Adding the same contact twice leaves the book as adding it once. */
  lemma AddIdempotent<T>(book: ContactBook<T>, id: int, contact: T)
    ensures book.Add(id, contact).Add(id, contact) == book.Add(id, contact)
  {
  }

  /** A new id puts its contact at the end of the contact list; a known id
      leaves the list as it was. */
  lemma AddValues<T>(book: ContactBook<T>, id: int, contact: T)
    requires book.Valid()
    ensures id !in book.entries ==> book.Add(id, contact).Values() == book.Values() + [contact]
    ensures id in book.entries ==> book.Add(id, contact).Values() == book.Values()
  {
    var r := book.Add(id, contact);
    if id !in book.entries {
      assert id !in book.order;
      forall i | 0 <= i < |book.order|
        ensures r.Values()[i] == book.Values()[i]
      {
        assert r.order[i] == book.order[i] != id;
      }
    }
  }

  /** `list_available_files` on folder values: each tree followed by a
      newline, in folder order. */
  function Listing(trees: seq<FolderTree>): string
  {
    if trees == [] then "" else Listing(trees[..|trees| - 1]) + RenderTree(trees[|trees| - 1], "") + "\n"
  }

  /** The listing holds exactly the trees' lines: each tree ends its last
      line with the newline put after it. */
  lemma {:induction false} ListingLines(trees: seq<FolderTree>)
    requires forall i :: 0 <= i < |trees| ==> NamesOnOneLine(trees[i])
    ensures Newlines(Listing(trees)) == SumOf(trees, LineCount)
  {
    if trees != [] {
      var n := |trees|;
      var init := trees[..n - 1];
      assert forall i :: 0 <= i < |init| ==> init[i] == trees[i];
      ListingLines(init);
      TreeLineCount(trees[n - 1], "");
      var last := RenderTree(trees[n - 1], "");
      assert Listing(trees) == Listing(init) + last + "\n";
      assert multiset(Listing(trees)) == multiset(Listing(init)) + multiset(last) + multiset("\n");
      assert SumOf(trees, LineCount) == SumOf(init, LineCount) + LineCount(trees[n - 1]);
    }
  }

  /** An employee. Identity and tags never change; everything else is
      updated in place by the simulation. */
  class Employee {
    const id: int
    const name: string
    const email: string
    const additionalInformation: string
    const tags: seq<string>
    var contactsMap: ContactBook<Employee>
    var knownFacts: seq<string>
    var folders: seq<Folder>
    var files: seq<FileEntry>
    var actions: seq<Action>
    var sentEmails: seq<Email>
    var receivedEmails: seq<Email>
    var preplannedActions: map<string, Reaction>
    var instructions: seq<string>

    /** The state of an employee nobody has touched yet. */
    predicate IsNew()
      reads this
    {
      && contactsMap == ContactBook([], map[])
      && knownFacts == [] && folders == [] && files == [] && actions == []
      && sentEmails == [] && receivedEmails == []
      && preplannedActions == map["do-nothing" := Plain(Wait)]
      && instructions == []
    }

    constructor (id: int, name: string, email: string, additionalInformation: string, tags: seq<string> := [])
      ensures this.id == id && this.name == name && this.email == email
      ensures this.additionalInformation == additionalInformation && this.tags == tags
      ensures IsNew()
    {
      this.id := id;
      this.name := name;
      this.email := email;
      this.additionalInformation := additionalInformation;
      this.tags := tags;
      contactsMap := ContactBook([], map[]);
      knownFacts := [];
      folders := [];
      files := [];
      actions := [];
      sentEmails := [];
      receivedEmails := [];
      preplannedActions := map["do-nothing" := Plain(Wait)];
      instructions := [];
    }

    /** `formated_instructions`: a heading line, then the instructions
        separated by a newline and a dash. */
    function FormattedInstructions(): (r: string)
      reads this
      ensures instructions == [] ==> r == "Instructions:\n"
      ensures instructions != [] ==> "Instructions:\n" + instructions[0] <= r
      ensures instructions != [] ==> |r| == 14 + TotalLength(instructions) + 3 * (|instructions| - 1)
    {
      if instructions == [] then "Instructions:\n"
      else
        JoinLength("\n- ", instructions);
        JoinStartsWithFirst("\n- ", instructions);
        "Instructions:\n" + Join("\n- ", instructions)
    }

    /** `contacts`. */
    function Contacts(): (r: seq<Employee>)
      reads this
      requires contactsMap.Valid()
      ensures |r| == |contactsMap.order|
      ensures forall i :: 0 <= i < |r| ==> r[i] == contactsMap.entries[contactsMap.order[i]]
      ensures forall k :: k in contactsMap.entries ==> contactsMap.entries[k] in r
    {
      var r := contactsMap.Values();
      assert forall k :: k in contactsMap.entries ==> exists i :: 0 <= i < |contactsMap.order| && contactsMap.order[i] == k && r[i] == contactsMap.entries[k];
      r
    }

    /** `add_contact`: maps the contact's id to it unless that id is already
        mapped (an existing contact is never replaced). */
    method AddContact(contact: Employee)
      modifies this`contactsMap
      ensures contactsMap == old(contactsMap).Add(contact.id, contact)
    {
      if contact.id !in contactsMap.entries {
        contactsMap := ContactBook(contactsMap.order + [contact.id], contactsMap.entries[contact.id := contact]);
      }
    }

    /** `execute_action`: the action, marked as executed by this employee,
        is appended to the history; what it does is not modelled. */
    method ExecuteAction(command: Command)
      modifies this`actions
      ensures actions == old(actions) + [Action(command, Some(id))]
    {
      actions := actions + [Action(command, Some(id))];
    }

    /** `list_available_files`. */
    method ListAvailableFiles() returns (all: string)
      ensures all == Listing(Snapshots(folders))
    {
      all := "";
      for i := 0 to |folders|
        invariant all == Listing(Snapshots(folders[..i]))
      {
        assert folders[..i + 1][..i] == folders[..i];
        all := all + folders[i].Tree() + "\n";
      }
      assert folders[..|folders|] == folders;
    }
  }
}
