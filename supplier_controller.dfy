/**
 * The supplier spreadsheet import (server/controllers/suppler.controller.js,
 * `importSuppliers`). The sheet arrives as a list of rows; each row is
 * checked against the collection as it stands at that moment, so a row
 * created earlier in the same file already counts as an existing supplier.
 * A row lacking a name, an email or a phone, or whose email or phone is
 * already taken, is skipped; any other row is created. A creation the
 * schema refuses (a name made only of spaces, which trims to nothing and
 * fails `required`) throws out of the loop: the reply is 500 and the rows
 * created before it stay stored.
 */
module SupplierController {
  import opened Common
  import opened Records

  /** One parsed spreadsheet row; a missing cell is None. */
  datatype SupplierRow = SupplierRow(
    name: Option<string>,
    email: Option<string>,
    phone: Option<string>,
    address: Option<string>,
    contactPersonName: Option<string>,
    contactPersonPhone: Option<string>)

  /** `name && email && phone`: the three cells the loop insists on. */
  predicate Complete(row: SupplierRow) {
    Truthy(row.name) && Truthy(row.email) && Truthy(row.phone)
  }

  /**
   * `Supplier.findOne({$or: [{email}, {phone}]})` finds something. The
   * email in the query goes through the schema's setter, the phone does not.
   */
  predicate Taken(store: seq<Supplier>, email: string, phone: string) {
    exists i :: 0 <= i < |store| && (store[i].email == SupplierEmail(email) || store[i].phone == phone)
  }

  /** No two stored suppliers share an email, and no two share a phone. */
  predicate UniqueContacts(store: seq<Supplier>) {
    forall i, j :: 0 <= i < j < |store| ==> store[i].email != store[j].email && store[i].phone != store[j].phone
  }

  /**
   * `Supplier.create` on a complete row: the name and email through their
   * setters, the optional cells defaulting to "". None when validation
   * fails, which for a complete row happens only for a blank name.
   */
  function NewSupplier(row: SupplierRow): (r: Option<Supplier>)
    requires Complete(row)
    ensures r.None? <==> IsBlank(row.name.value)
    ensures r.Some? ==> && r.value.name == Trim(row.name.value) && r.value.name != ""
                        && r.value.email == SupplierEmail(row.email.value)
                        && r.value.phone == row.phone.value
  {
    var name := Trim(row.name.value);
    if name == "" then None
    else Some(Supplier(name, SupplierEmail(row.email.value), row.phone.value,
                       row.address.GetOr(""), row.contactPersonName.GetOr(""), row.contactPersonPhone.GetOr("")))
  }

  /** Where the loop stands: still running with its counters, or thrown out by a failed creation. */
  datatype ImportOutcome =
    | Imported(store: seq<Supplier>, added: nat, skipped: nat)
    | Aborted(store: seq<Supplier>)

  /** One pass of the loop body on `row`. */
  function ImportRow(o: ImportOutcome, row: SupplierRow): (r: ImportOutcome)
    ensures o.store <= r.store && |r.store| <= |o.store| + 1
    ensures o.Aborted? ==> r == o
    ensures o.Imported? && r.Imported? ==>
              r.added + r.skipped == o.added + o.skipped + 1 && |r.store| == |o.store| + (r.added - o.added)
  {
    match o
    case Aborted(_) => o
    case Imported(store, added, skipped) =>
      if !Complete(row) || Taken(store, row.email.value, row.phone.value) then
        Imported(store, added, skipped + 1)
      else
        match NewSupplier(row)
        case None => Aborted(store)
        case Some(s) => Imported(store + [s], added + 1, skipped)
  }

  /** Appending the supplier of an untaken row keeps emails and phones unique. */
  lemma AppendKeepsUnique(store: seq<Supplier>, row: SupplierRow, s: Supplier)
    requires Complete(row) && !Taken(store, row.email.value, row.phone.value)
    requires s.email == SupplierEmail(row.email.value) && s.phone == row.phone.value
    ensures UniqueContacts(store) ==> UniqueContacts(store + [s])
  {
    if UniqueContacts(store) {
      var t := store + [s];
      forall i, j | 0 <= i < j < |t| ensures t[i].email != t[j].email && t[i].phone != t[j].phone {
        assert t[i] == store[i];
        if j < |store| {
          assert t[j] == store[j];
        }
      }
    }
  }

  /** One pass of the loop body keeps emails and phones unique. */
  lemma ImportRowKeepsUnique(o: ImportOutcome, row: SupplierRow)
    requires UniqueContacts(o.store)
    ensures UniqueContacts(ImportRow(o, row).store)
  {
    if o.Imported? && Complete(row) && !Taken(o.store, row.email.value, row.phone.value) && !IsBlank(row.name.value) {
      AppendKeepsUnique(o.store, row, NewSupplier(row).value);
    }
  }

  /** An import never stores two suppliers with the same email or the same phone. */
  lemma {:induction false} ImportKeepsUnique(store: seq<Supplier>, rows: seq<SupplierRow>)
    requires UniqueContacts(store)
    ensures UniqueContacts(ImportAll(store, rows).store)
  {
    if rows != [] {
      ImportKeepsUnique(store, rows[..|rows| - 1]);
      ImportRowKeepsUnique(ImportAll(store, rows[..|rows| - 1]), rows[|rows| - 1]);
    }
  }

  /** One more row is one more pass of the loop body. */
  lemma ImportPrefixStep(store: seq<Supplier>, rows: seq<SupplierRow>, i: nat)
    requires i < |rows|
    ensures ImportAll(store, rows[..i + 1]) == ImportRow(ImportAll(store, rows[..i]), rows[i])
  {
    assert rows[..i + 1][..i] == rows[..i];
  }

  /** The loop run over `rows` in order, from the collection `store`. */
  function ImportAll(store: seq<Supplier>, rows: seq<SupplierRow>): (r: ImportOutcome)
    ensures store <= r.store && |r.store| <= |store| + |rows|
    ensures r.Imported? ==> r.added + r.skipped == |rows| && |r.store| == |store| + r.added
  {
    if rows == [] then Imported(store, 0, 0)
    else ImportRow(ImportAll(store, rows[..|rows| - 1]), rows[|rows| - 1])
  }

  /** The JSON body of a finished import. */
  datatype ImportSummary = ImportSummary(message: string, added: nat, skipped: nat)

  /**
   * `importSuppliers`: 400 without a file; otherwise the rows in order,
   * answering with the two counters, or 500 when a creation fails.
   * `store'` is the collection afterwards.
   */
  method ImportSuppliers(store: seq<Supplier>, file: Option<seq<SupplierRow>>)
    returns (resp: Response<ImportSummary>, store': seq<Supplier>)
    ensures file.None? ==> resp == Fail(400, "No file uploaded") && store' == store
    ensures file.Some? ==>
              match ImportAll(store, file.value)
              case Imported(st, added, skipped) =>
                resp == Ok(200, ImportSummary("Import completed successfully", added, skipped)) && store' == st
              case Aborted(st) =>
                resp == Fail(500, "Server error during import") && store' == st
  {
    if file.None? {
      return Fail(400, "No file uploaded"), store;
    }
    var rows := file.value;
    var added: nat, skipped: nat := 0, 0;
    store' := store;
    var i := 0;
    while i < |rows|
      invariant 0 <= i <= |rows|
      invariant ImportAll(store, rows[..i]) == Imported(store', added, skipped)
    {
      var failed;
      failed, store', added, skipped := ImportNext(store, rows, i, store', added, skipped);
      if failed {
        return Fail(500, "Server error during import"), store';
      }
      i := i + 1;
    }
    assert rows[..i] == rows;
    resp := Ok(200, ImportSummary("Import completed successfully", added, skipped));
  }

  /**
   * The body of the loop on row `i`, with the collection `cur` and the
   * counters so far: skip an incomplete or taken row, otherwise create the
   * supplier; `failed` when the creation fails, which ends the import.
   */
  method ImportNext(store: seq<Supplier>, rows: seq<SupplierRow>, i: nat, cur: seq<Supplier>, added: nat, skipped: nat)
    returns (failed: bool, cur': seq<Supplier>, added': nat, skipped': nat)
    requires i < |rows| && ImportAll(store, rows[..i]) == Imported(cur, added, skipped)
    ensures failed ==> ImportAll(store, rows) == Aborted(cur) && cur' == cur
    ensures !failed ==> ImportAll(store, rows[..i + 1]) == Imported(cur', added', skipped')
  {
    var row := rows[i];
    if !Complete(row) || Taken(cur, row.email.value, row.phone.value) {
      ImportNextSkips(store, rows, i, cur, added, skipped);
      return false, cur, added, skipped + 1;
    }
    var created := NewSupplier(row);
    if created.None? {
      ImportNextAborts(store, rows, i, cur, added, skipped);
      return true, cur, added, skipped;
    }
    ImportNextAdds(store, rows, i, cur, added, skipped);
    failed, cur', added', skipped' := false, cur + [created.value], added + 1, skipped;
  }

  /** The loop skips row `i` when it is incomplete or its contact is taken. */
  lemma ImportNextSkips(store: seq<Supplier>, rows: seq<SupplierRow>, i: nat, cur: seq<Supplier>, added: nat, skipped: nat)
    requires i < |rows| && ImportAll(store, rows[..i]) == Imported(cur, added, skipped)
    requires !Complete(rows[i]) || Taken(cur, rows[i].email.value, rows[i].phone.value)
    ensures ImportAll(store, rows[..i + 1]) == Imported(cur, added, skipped + 1)
  {
    ImportPrefixStep(store, rows, i);
    if Complete(rows[i]) {
      ImportSkipsTaken(cur, added, skipped, rows[i]);
    } else {
      ImportSkipsIncomplete(cur, added, skipped, rows[i]);
    }
  }

  /** The loop stores the supplier of row `i` when it is complete, untaken and named. */
  lemma ImportNextAdds(store: seq<Supplier>, rows: seq<SupplierRow>, i: nat, cur: seq<Supplier>, added: nat, skipped: nat)
    requires i < |rows| && ImportAll(store, rows[..i]) == Imported(cur, added, skipped)
    requires Complete(rows[i]) && !Taken(cur, rows[i].email.value, rows[i].phone.value) && !IsBlank(rows[i].name.value)
    ensures ImportAll(store, rows[..i + 1]) == Imported(cur + [NewSupplier(rows[i]).value], added + 1, skipped)
  {
    ImportPrefixStep(store, rows, i);
    ImportAddsNew(cur, added, skipped, rows[i]);
  }

  /** A complete, untaken row with a blank name ends the whole import where it stands. */
  lemma ImportNextAborts(store: seq<Supplier>, rows: seq<SupplierRow>, i: nat, cur: seq<Supplier>, added: nat, skipped: nat)
    requires i < |rows| && ImportAll(store, rows[..i]) == Imported(cur, added, skipped)
    requires Complete(rows[i]) && !Taken(cur, rows[i].email.value, rows[i].phone.value) && IsBlank(rows[i].name.value)
    ensures ImportAll(store, rows) == Aborted(cur)
  {
    ImportPrefixStep(store, rows, i);
    ImportAbortsOnBlankName(cur, added, skipped, rows[i]);
    ImportStaysAborted(store, rows, i + 1);
  }

  /** Once a creation has failed, the later rows change nothing. */
  lemma {:induction false} ImportStaysAborted(store: seq<Supplier>, rows: seq<SupplierRow>, n: nat)
    requires n <= |rows| && ImportAll(store, rows[..n]).Aborted?
    ensures ImportAll(store, rows) == ImportAll(store, rows[..n])
    decreases |rows| - n
  {
    if n < |rows| {
      ImportPrefixStep(store, rows, n);
      ImportStaysAborted(store, rows, n + 1);
    } else {
      assert rows[..n] == rows;
    }
  }

  /** An incomplete row is counted as skipped and leaves the collection as it is. */
  lemma ImportSkipsIncomplete(store: seq<Supplier>, added: nat, skipped: nat, row: SupplierRow)
    requires !Complete(row)
    ensures ImportRow(Imported(store, added, skipped), row) == Imported(store, added, skipped + 1)
  {
  }

  /** A complete row whose email (after normalisation) or phone is already stored is skipped. */
  lemma ImportSkipsTaken(store: seq<Supplier>, added: nat, skipped: nat, row: SupplierRow)
    requires Complete(row) && Taken(store, row.email.value, row.phone.value)
    ensures ImportRow(Imported(store, added, skipped), row) == Imported(store, added, skipped + 1)
  {
  }

  /** A complete, untaken row whose name is blank makes the creation fail and ends the import. */
  lemma ImportAbortsOnBlankName(store: seq<Supplier>, added: nat, skipped: nat, row: SupplierRow)
    requires Complete(row) && !Taken(store, row.email.value, row.phone.value) && IsBlank(row.name.value)
    ensures ImportRow(Imported(store, added, skipped), row) == Aborted(store)
  {
  }

  /** A complete, untaken row with a real name is appended. */
  lemma ImportAddsNew(store: seq<Supplier>, added: nat, skipped: nat, row: SupplierRow)
    requires Complete(row) && !Taken(store, row.email.value, row.phone.value) && !IsBlank(row.name.value)
    ensures ImportRow(Imported(store, added, skipped), row) == Imported(store + [NewSupplier(row).value], added + 1, skipped)
  {
  }

  /**
   * Two rows of one file that share an email up to case and surrounding
   * spaces (or share a phone) never both become suppliers: the first one
   * created makes the second one taken.
   */
  lemma ImportSameContactTwice(store: seq<Supplier>, first: SupplierRow, second: SupplierRow)
    requires Complete(first) && Complete(second) && !IsBlank(first.name.value) && !IsBlank(second.name.value)
    requires SupplierEmail(first.email.value) == SupplierEmail(second.email.value) || first.phone == second.phone
    ensures ImportAll(store, [first, second]).Imported?
    ensures ImportAll(store, [first, second]).added <= 1
    ensures ImportAll(store, [first, second]).skipped >= 1
  {
    ImportTwo(store, first, second);
    ImportSameContactStep(store, first, second);
  }

  /** A file of two rows is two passes of the loop body. */
  lemma ImportTwo(store: seq<Supplier>, first: SupplierRow, second: SupplierRow)
    ensures ImportAll(store, [first, second]) == ImportRow(ImportRow(Imported(store, 0, 0), first), second)
  {
    var rows := [first, second];
    ImportPrefixStep(store, rows, 0);
    ImportPrefixStep(store, rows, 1);
    assert rows[..0] == [] && rows[..1] == [first] && rows[..2] == rows;
  }

  lemma ImportSameContactStep(store: seq<Supplier>, first: SupplierRow, second: SupplierRow)
    requires Complete(first) && Complete(second) && !IsBlank(first.name.value) && !IsBlank(second.name.value)
    requires SupplierEmail(first.email.value) == SupplierEmail(second.email.value) || first.phone == second.phone
    ensures var r := ImportRow(ImportRow(Imported(store, 0, 0), first), second);
            r.Imported? && r.added <= 1 && r.skipped >= 1
  {
    var o1 := ImportRow(Imported(store, 0, 0), first);
    if Taken(store, first.email.value, first.phone.value) {
      ImportSkipsTaken(store, 0, 0, first);
      if Taken(store, second.email.value, second.phone.value) {
        ImportSkipsTaken(store, 0, 1, second);
      } else {
        ImportAddsNew(store, 0, 1, second);
      }
    } else {
      ImportAddsNew(store, 0, 0, first);
      var t := store + [NewSupplier(first).value];
      assert t[|store|] == NewSupplier(first).value;
      assert Taken(t, second.email.value, second.phone.value);
      ImportSkipsTaken(t, 1, 0, second);
    }
  }
}
