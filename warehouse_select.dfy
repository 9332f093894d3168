/**
 * The warehouse picker: choosing a warehouse, creating one, renaming one and deleting
 * one, each change logged in the journal. Items name their warehouse by its name, so
 * neither a rename nor a delete touches them.
 */
module WarehouseSelect {
  import opened Options
  import opened Js
  import opened Store

  /** A row of `warehouses`. */
  datatype Warehouse = Warehouse(id: Id, name: string)

  /** The picker's state: the selected value it reports to its parent, the name
      field, the warehouse being edited and which dialogs are open. */
  datatype Picker = Picker(
    value: string,
    newName: string,
    editing: Option<Warehouse>,
    createOpen: bool,
    editOpen: bool,
    open: bool)

  const EnterWarehouseName: string := "Введите название склада"

  /** The journal row of a warehouse change: no item, quantity 0, the name in
      `item_name`. */
  function WarehouseEntry(user: Id, action: string, name: string, details: Details): (e: Transaction)
    ensures e.itemId.None? && e.quantity == 0 && e.itemName == Some(name)
  {
    Transaction(None, user, action, 0, None, None, None, Some(name), None, details)
  }

  /** `handleSelect`. */
  function HandleSelect(p: Picker, w: string): (r: Picker)
    ensures r.value == w && !r.open
    ensures r.newName == p.newName && r.editing == p.editing
  {
    p.(value := w, open := false)
  }

  /** `openCreateDialog`. */
  function OpenCreate(p: Picker): (r: Picker)
    ensures r.newName == "" && r.createOpen && !r.open && r.value == p.value
  {
    p.(newName := "", createOpen := true, open := false)
  }

  /** `openEditDialog`: the name field starts with the current name. */
  function OpenEdit(p: Picker, w: Warehouse): (r: Picker)
    ensures r.editing == Some(w) && r.newName == w.name && r.editOpen && r.value == p.value
  {
    p.(editing := Some(w), newName := w.name, editOpen := true)
  }

  /** `handleCreateWarehouse`. `actor` is the caller's app_users id (`None`: no
      session or no profile); `freshId` is the id the database gives the row, and an
      id already in use fails the insert; `logOk` says whether the log insert
      succeeds, which is never checked. */
  function Create(t: Tables, p: Picker, actor: Option<Id>, freshId: Id, insertOk: bool, logOk: bool): (s: Step<Picker>)
    ensures AllSpace(p.newName) ==> s == Step(t, p, Rejected(EnterWarehouseName))
    ensures s.outcome == Done <==> !AllSpace(p.newName) && actor.Some? && insertOk && freshId !in t.warehouses
    ensures s.outcome != Done ==> s.tables == t && s.form == p
    ensures s.outcome == Done ==>
              s.tables.warehouses == t.warehouses[freshId := Trim(p.newName)] &&
              s.tables.log == t.log + (if logOk then [WarehouseEntry(actor.value, ActionWarehouseCreated, Trim(p.newName), WarehouseNamed(Trim(p.newName)))] else []) &&
              s.form == p.(value := Trim(p.newName), newName := "", createOpen := false)
    ensures s.tables.items == t.items && s.tables.users == t.users && s.tables.objects == t.objects
  {
    var name := Trim(p.newName);
    if name == [] then Step(t, p, Rejected(EnterWarehouseName))
    else if actor.None? then Step(t, p, Failed)
    else if !insertOk || freshId in t.warehouses then Step(t, p, Failed)
    else
      var inserted := t.InsertWarehouse(freshId, name);
      var logged := if logOk then inserted.Record(WarehouseEntry(actor.value, ActionWarehouseCreated, name, WarehouseNamed(name))) else inserted;
      assert logged.warehouses == inserted.warehouses && logged.items == t.items &&
             logged.users == t.users && logged.objects == t.objects;
      Step(logged, p.(value := name, newName := "", createOpen := false), Done)
  }

  /** `handleUpdateWarehouse`: the trimmed name is written without an emptiness
      check; the selection follows the rename only if it was the old name. */
  function Update(t: Tables, p: Picker, actor: Option<Id>, updateOk: bool, logOk: bool): (s: Step<Picker>)
    ensures s.outcome == Done <==> p.editing.Some? && actor.Some? && updateOk
    ensures s.outcome != Done ==> s.tables == t && s.form == p
    ensures s.outcome == Done ==>
              var w := p.editing.value;
              var name := Trim(p.newName);
              s.tables.warehouses == t.RenameWarehouse(w.id, name).warehouses &&
              s.tables.log == t.log + (if logOk then [WarehouseEntry(actor.value, ActionWarehouseRenamed, name, WarehouseRenamed(w.name, name))] else []) &&
              (p.value == w.name ==> s.form.value == name) &&
              (p.value != w.name ==> s.form.value == p.value) &&
              s.form.editing.None? && s.form.newName == "" && !s.form.editOpen
    ensures s.tables.items == t.items && s.tables.users == t.users && s.tables.objects == t.objects
  {
    if p.editing.None? then Step(t, p, Failed)
    else if actor.None? then Step(t, p, Failed)
    else
      var w := p.editing.value;
      var name := Trim(p.newName);
      if !updateOk then Step(t, p, Failed)
      else
        var renamed := t.RenameWarehouse(w.id, name);
        var logged := if logOk then renamed.Record(WarehouseEntry(actor.value, ActionWarehouseRenamed, name, WarehouseRenamed(w.name, name))) else renamed;
        var value := if p.value == w.name then name else p.value;
        assert logged.warehouses == renamed.warehouses && logged.items == t.items &&
               logged.users == t.users && logged.objects == t.objects;
        Step(logged, p.(value := value, editOpen := false, editing := None, newName := ""), Done)
  }

  /** A rename to a blank name goes through and stores the empty name. */
  lemma RenameToBlank(t: Tables, p: Picker, actor: Id, logOk: bool)
    requires p.editing.Some? && p.editing.value.id in t.warehouses && AllSpace(p.newName)
    ensures var s := Update(t, p, Some(actor), true, logOk);
            s.outcome == Done && s.tables.warehouses[p.editing.value.id] == ""
  {
  }

  /** `handleDeleteWarehouse(id, name)`, confirmed: the journal row is written before
      the delete, whose failure does not take it back. */
  function Delete(t: Tables, p: Picker, actor: Option<Id>, id: Id, name: string, logOk: bool, deleteOk: bool): (s: Step<Picker>)
    ensures s.form == p
    ensures s.outcome == Done <==> actor.Some? && deleteOk
    ensures actor.None? ==> s.tables == t
    ensures actor.Some? ==>
              s.tables.log == t.log + (if logOk then [WarehouseEntry(actor.value, ActionWarehouseDeleted, name, WarehouseNamed(name))] else [])
    ensures s.tables.warehouses == if s.outcome == Done then t.warehouses - {id} else t.warehouses
    ensures s.tables.items == t.items && s.tables.users == t.users && s.tables.objects == t.objects
  {
    if actor.None? then Step(t, p, Failed)
    else
      var logged := if logOk then t.Record(WarehouseEntry(actor.value, ActionWarehouseDeleted, name, WarehouseNamed(name))) else t;
      if !deleteOk then Step(logged, p, Failed)
      else Step(logged.DeleteWarehouse(id), p, Done)
  }

  /** A failed delete still leaves its "склад удален" row in the journal, and the
      warehouse in place. */
  lemma DeleteLogsEvenIfDeleteFails(t: Tables, p: Picker, actor: Id, w: Warehouse)
    requires w.id in t.warehouses
    ensures var s := Delete(t, p, Some(actor), w.id, w.name, true, false);
            s.outcome == Failed && w.id in s.tables.warehouses &&
            s.tables.log[|t.log|].action == ActionWarehouseDeleted &&
            s.tables.log[|t.log|].details == WarehouseNamed(w.name)
  {
  }

  /** Items whose warehouse is a deleted or renamed warehouse keep naming it. */
  lemma WarehouseChangesKeepItems(t: Tables, p: Picker, actor: Option<Id>, w: Warehouse, ok1: bool, ok2: bool)
    requires p.editing == Some(w)
    ensures forall id :: id in t.items ==>
              id in Delete(t, p, actor, w.id, w.name, ok1, ok2).tables.items &&
              Delete(t, p, actor, w.id, w.name, ok1, ok2).tables.items[id].warehouse == t.items[id].warehouse
    ensures Update(t, p, actor, ok1, ok2).tables.items == t.items
  {
  }

  class WarehouseSelector {
    var value: string
    var newName: string
    var editing: Option<Warehouse>
    var createOpen: bool
    var editOpen: bool
    var open: bool

    function State(): Picker
      reads this
    {
      Picker(value, newName, editing, createOpen, editOpen, open)
    }

    constructor (selected: string)
      ensures State() == Picker(selected, "", None, false, false, false)
    {
      value := selected;
      newName := "";
      editing := None;
      createOpen := false;
      editOpen := false;
      open := false;
    }

    method SetNewName(text: string)
      modifies this
      ensures State() == old(State()).(newName := text)
    {
      newName := text;
    }

    method Select(w: string)
      modifies this
      ensures State() == HandleSelect(old(State()), w)
    {
      value := w;
      open := false;
    }

    method OpenCreateDialog()
      modifies this
      ensures State() == OpenCreate(old(State()))
    {
      newName := "";
      createOpen := true;
      open := false;
    }

    method OpenEditDialog(w: Warehouse)
      modifies this
      ensures State() == OpenEdit(old(State()), w)
    {
      editing := Some(w);
      newName := w.name;
      editOpen := true;
    }

    /** `handleCreateWarehouse`: insert, log, select the new name. */
    method CreateWarehouse(db: Db, actor: Option<Id>, freshId: Id, insertOk: bool, logOk: bool) returns (outcome: Outcome)
      modifies this, db
      ensures Step(db.Snapshot(), State(), outcome) == Create(old(db.Snapshot()), old(State()), actor, freshId, insertOk, logOk)
    {
      var name := Trim(newName);
      if name == [] {
        return Rejected(EnterWarehouseName);
      }
      if actor.None? {
        return Failed;
      }
      if !insertOk || freshId in db.warehouses {
        return Failed;
      }
      InsertAndSelect(db, actor.value, freshId, name, logOk);
      return Done;
    }

    /** The writes of a create that passed its checks: the insert, the journal row
        when its insert succeeds, then the picker selects the new name. */
    method InsertAndSelect(db: Db, user: Id, freshId: Id, name: string, logOk: bool)
      modifies this, db
      ensures var inserted := old(db.Snapshot()).InsertWarehouse(freshId, name);
              db.Snapshot() ==
                if logOk then inserted.Record(WarehouseEntry(user, ActionWarehouseCreated, name, WarehouseNamed(name)))
                else inserted
      ensures State() == old(State()).(value := name, newName := "", createOpen := false)
    {
      db.InsertWarehouse(freshId, name);
      if logOk {
        db.Record(WarehouseEntry(user, ActionWarehouseCreated, name, WarehouseNamed(name)));
      }
      value := name;
      newName := "";
      createOpen := false;
    }

    /** `handleUpdateWarehouse`: rename, log, let the selection follow. */
    method UpdateWarehouse(db: Db, actor: Option<Id>, updateOk: bool, logOk: bool) returns (outcome: Outcome)
      modifies this, db
      ensures Step(db.Snapshot(), State(), outcome) == Update(old(db.Snapshot()), old(State()), actor, updateOk, logOk)
    {
      if editing.None? {
        return Failed;
      }
      if actor.None? {
        return Failed;
      }
      var w := editing.value;
      var name := Trim(newName);
      if !updateOk {
        return Failed;
      }
      RenameAndFollow(db, actor.value, w, name, logOk);
      return Done;
    }

    /** The writes of a rename that passed its checks: the update, the journal row
        when its insert succeeds, then the selection follows the new name if it was
        the old one, and the edit dialog closes. */
    method RenameAndFollow(db: Db, user: Id, w: Warehouse, name: string, logOk: bool)
      modifies this, db
      ensures var renamed := old(db.Snapshot()).RenameWarehouse(w.id, name);
              db.Snapshot() ==
                if logOk then renamed.Record(WarehouseEntry(user, ActionWarehouseRenamed, name, WarehouseRenamed(w.name, name)))
                else renamed
      ensures State() == old(State()).(value := if old(value) == w.name then name else old(value),
                                       editOpen := false, editing := None, newName := "")
    {
      db.RenameWarehouse(w.id, name);
      if logOk {
        db.Record(WarehouseEntry(user, ActionWarehouseRenamed, name, WarehouseRenamed(w.name, name)));
      }
      if value == w.name {
        value := name;
      }
      editOpen := false;
      editing := None;
      newName := "";
    }

    /** `handleDeleteWarehouse`: log first, then delete. */
    method DeleteWarehouse(db: Db, actor: Option<Id>, id: Id, name: string, logOk: bool, deleteOk: bool) returns (outcome: Outcome)
      modifies db
      ensures Step(db.Snapshot(), State(), outcome) == Delete(old(db.Snapshot()), State(), actor, id, name, logOk, deleteOk)
    {
      if actor.None? {
        return Failed;
      }
      if logOk {
        db.Record(WarehouseEntry(actor.value, ActionWarehouseDeleted, name, WarehouseNamed(name)));
      }
      if !deleteOk {
        return Failed;
      }
      db.DeleteWarehouse(id);
      return Done;
    }
  }
}
