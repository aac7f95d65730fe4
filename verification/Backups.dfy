/**
  Putting a room back after a failed commit, on the heap: documents are shared
  objects whose fields are overwritten, and the order is an array that a
  deletion closes up in place. The backup holds copies, so that nothing done to
  the room afterwards reaches it.

  `HeapRoom` is a model of its own, of the two fields that are shared on the
  heap. The room of module `Rooms` holds documents and order as values, and the
  snapshot record that is restored with them is a value in both.
*/
module Backups {
  import opened Histories
  import opened Sequences
  import opened Authority

  class Cell {
    var document: Document

    constructor (document: Document)
      ensures this.document == document
    {
      this.document := document;
    }
  }

  ghost function Values(cells: map<Id, Cell>): map<Id, Document>
    reads set id | id in cells :: cells[id]
  {
    map id | id in cells :: cells[id].document
  }

  /** No two documents share an object. */
  ghost predicate Separate(cells: map<Id, Cell>) {
    forall a, b :: a in cells && b in cells && a != b ==> cells[a] != cells[b]
  }

  ghost function Objects(cells: map<Id, Cell>): set<Cell> {
    set id | id in cells :: cells[id]
  }

  /** A copy of every object. */
  method CopyCells(cells: map<Id, Cell>) returns (copies: map<Id, Cell>)
    ensures copies.Keys == cells.Keys && Separate(copies) && fresh(Objects(copies))
    ensures Values(copies) == Values(cells)
  {
    hide Separate;
    copies := map[];
    assert Separate(copies) by { NoneSeparate(copies); }
    var rest := cells.Keys;
    while rest != {}
      invariant rest <= cells.Keys && copies.Keys == cells.Keys - rest
      invariant Separate(copies) && forall id :: id in copies ==> fresh(copies[id])
      invariant forall id :: id in copies ==> copies[id].document == cells[id].document
      decreases |rest|
    {
      var id :| id in rest;
      var copy := new Cell(cells[id].document);
      SeparateMore(copies, id, copy);
      copies := copies[id := copy];
      rest := rest - {id};
    }
  }

  lemma NoneSeparate(cells: map<Id, Cell>)
    requires cells == map[]
    ensures Separate(cells)
  {
  }

  lemma SeparateMore(cells: map<Id, Cell>, id: Id, cell: Cell)
    requires Separate(cells) && forall other :: other in cells ==> cells[other] != cell
    ensures Separate(cells[id := cell])
  {
  }

  method CopyOrder(order: array<Id>, length: nat) returns (copy: array<Id>)
    requires length <= order.Length
    ensures fresh(copy) && copy.Length == length && copy[..] == order[..length]
  {
    copy := new Id[length](_ => "");
    for i := 0 to length
      invariant copy[..i] == order[..i]
    {
      copy[i] := order[i];
    }
  }

  lemma ClosedUp(after: seq<Id>, before: seq<Id>, i: nat)
    requires i < |before| == |after| + 1
    requires forall j :: 0 <= j < i ==> after[j] == before[j]
    requires forall j :: i <= j < |after| ==> after[j] == before[j + 1]
    ensures after == before[..i] + before[i + 1..]
  {
  }

  class Backup {
    const cells: map<Id, Cell>
    const order: array<Id>

    constructor (cells: map<Id, Cell>, order: array<Id>)
      ensures this.cells == cells && this.order == order
    {
      this.cells, this.order := cells, order;
    }
  }

  class HeapRoom {
    var cells: map<Id, Cell>
    var order: array<Id>
    var length: nat

    ghost predicate Valid()
      reads this
    {
      length <= order.Length && Separate(cells)
    }

    ghost function Documents(): map<Id, Document>
      reads this, Objects(cells)
    {
      Values(cells)
    }

    ghost function Order(): seq<Id>
      requires length <= order.Length
      reads this, order
    {
      order[..length]
    }

    constructor (cells: map<Id, Cell>, order: array<Id>)
      requires Separate(cells)
      ensures Valid() && Documents() == Values(cells) && Order() == order[..]
    {
      this.cells, this.order, length := cells, order, order.Length;
    }

    method TakeBackup() returns (backup: Backup)
      requires Valid()
      ensures fresh(backup) && fresh(backup.order) && fresh(Objects(backup.cells))
      ensures Separate(backup.cells) && Values(backup.cells) == Documents() && backup.order[..] == Order()
    {
      var copies := CopyCells(cells);
      var copy := CopyOrder(order, length);
      backup := new Backup(copies, copy);
    }

    method Restore(backup: Backup)
      requires Separate(backup.cells)
      modifies this
      ensures Valid() && Documents() == Values(backup.cells) && Order() == backup.order[..]
    {
      cells, order, length := backup.cells, backup.order, backup.order.Length;
    }

    /** Overwrites one document's object. */
    method Overwrite(id: Id, document: Document)
      requires Valid() && id in cells
      modifies cells[id]
      ensures Valid() && Documents() == old(Documents())[id := document]
    {
      cells[id].document := document;
    }

    /** Takes an id out of the order by moving the later ones up in the same array. */
    method CloseUp(id: Id)
      requires Valid()
      modifies this`length, order
      ensures Valid() && Order() == Without(old(Order()), id)
    {
      ghost var before := Order();
      var i, n := 0, length;
      while i < n && order[i] != id
        invariant i <= n && forall k :: 0 <= k < i ==> before[k] != id
      {
        i := i + 1;
      }
      if i == n {
        WithoutAbsent(before, id);
        return;
      }
      WithoutAt(before, i, id);
      for k := i to n - 1
        invariant length == n && forall j :: 0 <= j < i ==> order[j] == before[j]
        invariant forall j :: i <= j < k ==> order[j] == before[j + 1]
        invariant forall j :: k <= j < n ==> order[j] == before[j]
      {
        order[k] := order[k + 1];
      }
      length := n - 1;
      ClosedUp(order[..n - 1], before, i);
    }

    /** An edit that is put in place and then commits or not: what does not commit leaves no trace. */
    method TryEdit(id: Id, document: Document, commits: bool)
      requires Valid() && id in cells
      modifies this, cells[id]
      ensures Valid() && Order() == old(Order())
      ensures Documents() == if commits then old(Documents())[id := document] else old(Documents())
    {
      var backup := TakeBackup();
      assert cells[id] !in Objects(backup.cells);
      ghost var kept := Values(backup.cells);
      Overwrite(id, document);
      assert Values(backup.cells) == kept;
      if !commits {
        Restore(backup);
      }
    }

    /** A deletion likewise, with the order closed up in place. */
    method TryDelete(id: Id, commits: bool)
      requires Valid()
      modifies this, order
      ensures Valid()
      ensures commits ==> Documents() == old(Documents()) - {id} && Order() == Without(old(Order()), id)
      ensures !commits ==> Documents() == old(Documents()) && Order() == old(Order())
    {
      var backup := TakeBackup();
      cells := cells - {id};
      CloseUp(id);
      if !commits {
        Restore(backup);
      }
    }
  }
}
