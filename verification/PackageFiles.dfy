/**
 The extra files of a package. Saving a package reconciles its file rows with the requested list: rows
 named by id are kept or rewritten in place, everything else requested is inserted, the rest is deleted.
 */
module PackageFiles {

  datatype Content = Content(name: string, size: string, hash: string, hash256: string)

  datatype FileRow = FileRow(package: string, content: Content)

  /** A requested file; a new one carries an id that is no row of the package, such as zero. */
  datatype FileRequest = FileRequest(id: int, content: Content)

  function RowsOf(rows: map<int, FileRow>, package: string): set<int> {
    set id | id in rows && rows[id].package == package
  }

  /** The first request that names a row of the package keeps that row. */
  predicate KeepsRow(rows: map<int, FileRow>, package: string, requested: seq<FileRequest>, k: nat)
    requires k < |requested|
  {
    requested[k].id in RowsOf(rows, package) && forall j | 0 <= j < k :: requested[j].id != requested[k].id
  }

  predicate Distinct(ids: seq<int>) {
    forall i, j | 0 <= i < j < |ids| :: ids[i] != ids[j]
  }

  /** The k-th request is stored in row `placed[k]`, and these are the rows of the package. */
  ghost predicate Reconciled(rows: map<int, FileRow>, package: string, requested: seq<FileRequest>, placed: seq<int>) {
    && |placed| == |requested| && Distinct(placed)
    && RowsOf(rows, package) == (set id | id in placed)
    && forall k | 0 <= k < |placed| :: placed[k] in rows && rows[placed[k]] == FileRow(package, requested[k].content)
  }

  // ----- what is known half way -----

  function Ids(placed: seq<int>): set<int> {
    set id | id in placed
  }

  /** Ids come from a sequence that is now at `next`, and files have names. */
  predicate TableOk(rows: map<int, FileRow>, next: int) {
    forall id | id in rows :: id < next && rows[id].content.name != ""
  }

  /** Rows of other packages are the same in both tables. */
  predicate OthersSame(before: map<int, FileRow>, after: map<int, FileRow>, package: string) {
    && (forall id | id in before && before[id].package != package :: id in after && after[id] == before[id])
    && (forall id | id in after && after[id].package != package :: id in before)
  }

  /** Row `placed[j]` holds request `j`. */
  predicate Stored(rows: map<int, FileRow>, package: string, requested: seq<FileRequest>, placed: seq<int>) {
    && |placed| <= |requested| && Distinct(placed)
    && forall j | 0 <= j < |placed| :: placed[j] in rows && rows[placed[j]] == FileRow(package, requested[j].content)
  }

  /** Requests that name a row keep it, the others got new rows. */
  predicate PlacedWell(before: map<int, FileRow>, next: int, package: string, requested: seq<FileRequest>,
      placed: seq<int>) {
    && |placed| <= |requested|
    && forall j | 0 <= j < |placed| ::
         if KeepsRow(before, package, requested, j) then placed[j] == requested[j].id else placed[j] >= next
  }

  /** `left` are the old rows of the package that none of the first `k` requests names. */
  ghost predicate Left(before: map<int, FileRow>, package: string, requested: seq<FileRequest>, k: nat, left: set<int>)
    requires k <= |requested|
  {
    forall id :: id in left <==> id in RowsOf(before, package) && forall j | 0 <= j < k :: requested[j].id != id
  }

  /** The state of the loop after `|placed|` requests. */
  ghost predicate Progress(before: map<int, FileRow>, next0: int, package: string, requested: seq<FileRequest>,
      placed: seq<int>, left: set<int>, rows: map<int, FileRow>, next: int) {
    && TableOk(before, next0) && next0 <= next && TableOk(rows, next)
    && OthersSame(before, rows, package)
    && Stored(rows, package, requested, placed)
    && PlacedWell(before, next0, package, requested, placed)
    && Left(before, package, requested, |placed|, left)
    && RowsOf(rows, package) == left + Ids(placed) && left !! Ids(placed)
    && forall id | id in left :: rows[id] == before[id]
  }

  lemma {:induction false} Begin(before: map<int, FileRow>, next: int, package: string, requested: seq<FileRequest>)
    requires TableOk(before, next)
    ensures Progress(before, next, package, requested, [], RowsOf(before, package), before, next)
  {
  }

  lemma {:induction false} LeftNext(before: map<int, FileRow>, package: string, requested: seq<FileRequest>, k: nat,
      left: set<int>)
    requires k < |requested| && Left(before, package, requested, k, left)
    ensures Left(before, package, requested, k + 1, left - {requested[k].id})
    ensures requested[k].id in left <==> KeepsRow(before, package, requested, k)
  {
  }

  /** A request that names one of the rows left keeps that row, with the requested content. */
  lemma {:induction false} RowKept(before: map<int, FileRow>, next0: int, package: string, requested: seq<FileRequest>,
      placed: seq<int>, left: set<int>, rows: map<int, FileRow>, next: int, rows': map<int, FileRow>)
    requires Progress(before, next0, package, requested, placed, left, rows, next) && |placed| < |requested|
    requires var file := requested[|placed|];
             && file.id in left && file.content.name != ""
             && rows' == rows[file.id := FileRow(package, file.content)]
    ensures var id := requested[|placed|].id;
            Progress(before, next0, package, requested, placed + [id], left - {id}, rows', next)
  {
    var id := requested[|placed|].id;
    assert id in RowsOf(rows, package) && !(id in Ids(placed));
    KeptRowSame(rows, rows', package, id, requested[|placed|].content);
    OneMoreId(placed, id);
    NextStored(rows, rows', package, requested, placed, id);
    NextPlaced(before, next0, package, requested, placed, left, id);
    assert OthersSame(before, rows', package);
    hide Left, KeepsRow, RowsOf, Ids, Stored, PlacedWell, OthersSame;
  }

  /** Rewriting a row of the package leaves the set of its rows as it was. */
  lemma KeptRowSame(rows: map<int, FileRow>, rows': map<int, FileRow>, package: string, id: int, content: Content)
    requires id in RowsOf(rows, package) && rows' == rows[id := FileRow(package, content)]
    ensures RowsOf(rows', package) == RowsOf(rows, package)
  {
  }

  lemma OneMoreId(placed: seq<int>, id: int)
    ensures Ids(placed + [id]) == Ids(placed) + {id}
  {
  }

  /** The next request is stored in a row of its own. */
  lemma {:induction false} NextStored(rows: map<int, FileRow>, rows': map<int, FileRow>, package: string,
      requested: seq<FileRequest>, placed: seq<int>, id: int)
    requires Stored(rows, package, requested, placed) && |placed| < |requested| && id !in Ids(placed)
    requires rows' == rows[id := FileRow(package, requested[|placed|].content)]
    ensures Stored(rows', package, requested, placed + [id])
  {
    forall j | 0 <= j < |placed|
      ensures placed[j] in Ids(placed)
    {
    }
  }

  /** The next request keeps the row it names, if nobody named it before, or gets a new one. */
  lemma {:induction false} NextPlaced(before: map<int, FileRow>, next0: int, package: string,
      requested: seq<FileRequest>, placed: seq<int>, left: set<int>, id: int)
    requires PlacedWell(before, next0, package, requested, placed) && |placed| < |requested|
    requires Left(before, package, requested, |placed|, left)
    requires if requested[|placed|].id in left then id == requested[|placed|].id else id >= next0
    ensures PlacedWell(before, next0, package, requested, placed + [id])
    ensures Left(before, package, requested, |placed + [id]|, left - {requested[|placed|].id})
  {
    LeftNext(before, package, requested, |placed|, left);
    assert |placed + [id]| == |placed| + 1;
    hide Left, KeepsRow;
  }

  /** Any other request gets a new row. */
  lemma {:induction false} RowInserted(before: map<int, FileRow>, next0: int, package: string,
      requested: seq<FileRequest>, placed: seq<int>, left: set<int>, rows: map<int, FileRow>, next: int,
      rows': map<int, FileRow>)
    requires Progress(before, next0, package, requested, placed, left, rows, next) && |placed| < |requested|
    requires var file := requested[|placed|];
             && file.id !in left && file.content.name != ""
             && rows' == rows[next := FileRow(package, file.content)]
    ensures Progress(before, next0, package, requested, placed + [next], left, rows', next + 1)
  {
    var content := requested[|placed|].content;
    forall id | id in left || id in Ids(placed)
      ensures id in rows && id < next
    {
      assert id in RowsOf(rows, package);
    }
    assert left - {requested[|placed|].id} == left;
    NewRowCounts(rows, rows', package, next, content);
    OneMoreId(placed, next);
    NextStored(rows, rows', package, requested, placed, next);
    NextPlaced(before, next0, package, requested, placed, left, next);
    OthersStillSame(before, next0, rows, rows', package, next, content);
    hide Left, KeepsRow, RowsOf, Ids, Stored, PlacedWell, OthersSame;
  }

  lemma NewRowCounts(rows: map<int, FileRow>, rows': map<int, FileRow>, package: string, id: int, content: Content)
    requires rows' == rows[id := FileRow(package, content)]
    ensures RowsOf(rows', package) == RowsOf(rows, package) + {id}
  {
  }

  lemma OthersStillSame(before: map<int, FileRow>, next0: int, rows: map<int, FileRow>, rows': map<int, FileRow>,
      package: string, next: int, content: Content)
    requires TableOk(before, next0) && next0 <= next && OthersSame(before, rows, package)
    requires rows' == rows[next := FileRow(package, content)]
    ensures OthersSame(before, rows', package)
  {
  }

  /** Deleting what is left completes the reconciliation. */
  lemma {:induction false} Finish(before: map<int, FileRow>, next0: int, package: string, requested: seq<FileRequest>,
                                  placed: seq<int>, left: set<int>, rows: map<int, FileRow>, next: int)
    requires Progress(before, next0, package, requested, placed, left, rows, next) && |placed| == |requested|
    ensures Reconciled(rows - left, package, requested, placed)
    ensures OthersSame(before, rows - left, package) && TableOk(rows - left, next)
  {
    forall j | 0 <= j < |placed|
      ensures placed[j] !in left
    {
      assert placed[j] in Ids(placed);
    }
    assert RowsOf(rows - left, package) == Ids(placed);
    forall id | id in left
      ensures id in RowsOf(rows, package)
    {
    }
    hide Left, KeepsRow;
  }

  // ----- the table -----

  class FileTable {
    var rows: map<int, FileRow>
    var nextId: int

    ghost predicate Valid()
      reads this
    {
      TableOk(rows, nextId)
    }

    constructor ()
      ensures Valid() && rows == map[]
    {
      rows, nextId := map[], 1;
    }

    /**
     `updatePackageFiles` within its transaction; a new package has no rows yet. It fails exactly when a
     requested file has no name, and then the rollback restores every row. `placed` says in which row
     each request ends up.
     */
    method UpdatePackageFiles(package: string, requested: seq<FileRequest>) returns (ok: bool, placed: seq<int>)
      requires Valid()
      modifies this
      ensures Valid() && nextId >= old(nextId)
      ensures ok <==> forall k | 0 <= k < |requested| :: requested[k].content.name != ""
      ensures !ok ==> rows == old(rows)
      ensures ok ==> Reconciled(rows, package, requested, placed)
      ensures ok ==> PlacedWell(old(rows), old(nextId), package, requested, placed)
      ensures OthersSame(old(rows), rows, package)
    {
      placed := [];
      var written := rows;
      var oldFiles := RowsOf(rows, package);
      ghost var next0 := nextId;
      Begin(rows, nextId, package, requested);
      for k := 0 to |requested|
        invariant rows == old(rows) && |placed| == k
        invariant forall j | 0 <= j < k :: requested[j].content.name != ""
        invariant Progress(rows, next0, package, requested, placed, oldFiles, written, nextId)
      {
        hide Stored, PlacedWell, OthersSame, Ids;
        var newFile := requested[k];
        if newFile.id in oldFiles {
          assert newFile.id in RowsOf(written, package) && written[newFile.id] == rows[newFile.id];
          ghost var before := written;
          // An unchanged file is not touched.
          if rows[newFile.id].content != newFile.content {
            if newFile.content.name == "" {
              ValidLater(rows, next0, nextId);
              return false, placed;
            }
            written := written[newFile.id := written[newFile.id].(content := newFile.content)];
          }
          assert written == before[newFile.id := FileRow(package, newFile.content)];
          RowKept(rows, next0, package, requested, placed, oldFiles, before, nextId, written);
          oldFiles := oldFiles - {newFile.id};
          placed := placed + [newFile.id];
        } else {
          if newFile.content.name == "" {
            ValidLater(rows, next0, nextId);
            return false, placed;
          }
          ghost var before := written;
          written := written[nextId := FileRow(package, newFile.content)];
          RowInserted(rows, next0, package, requested, placed, oldFiles, before, nextId, written);
          placed := placed + [nextId];
          nextId := nextId + 1;
        }
      }
      Finish(rows, next0, package, requested, placed, oldFiles, written, nextId);
      hide Reconciled, Progress, OthersSame, PlacedWell;
      rows := DeleteRows(written, oldFiles);
      return true, placed;
    }
  }

  /** The deletions at the end, one row at a time. */
  method DeleteRows(rows: map<int, FileRow>, gone: set<int>) returns (kept: map<int, FileRow>)
    ensures kept == rows - gone
  {
    kept := rows;
    var todo := gone;
    while exists id :: id in todo
      invariant todo <= gone
      invariant forall id :: id in kept <==> id in rows && (id in gone ==> id in todo)
      invariant forall id | id in kept :: kept[id] == rows[id]
      decreases |todo|
    {
      var id :| id in todo;
      todo := todo - {id};
      kept := kept - {id};
    }
    assert forall id :: id in kept <==> id in rows - gone;
    assert forall id | id in kept :: kept[id] == (rows - gone)[id];
  }

  lemma ValidLater(rows: map<int, FileRow>, next0: int, next: int)
    requires TableOk(rows, next0) && next0 <= next
    ensures TableOk(rows, next) && forall package :: OthersSame(rows, rows, package)
  {
  }

  // ----- what reconciliation means -----

  function Contents(requested: seq<FileRequest>): seq<Content> {
    seq(|requested|, k requires 0 <= k < |requested| => requested[k].content)
  }

  /** The package's rows with a given content. */
  function Copies(rows: map<int, FileRow>, package: string, c: Content): set<int> {
    set id | id in rows && rows[id] == FileRow(package, c)
  }

  function PlacedWith(requested: seq<FileRequest>, placed: seq<int>, c: Content): set<int>
    requires |placed| == |requested|
  {
    set k | 0 <= k < |placed| && requested[k].content == c :: placed[k]
  }

  lemma {:induction false} PlacedCount(requested: seq<FileRequest>, placed: seq<int>, c: Content)
    requires |placed| == |requested| && Distinct(placed)
    ensures |PlacedWith(requested, placed, c)| == multiset(Contents(requested))[c]
    decreases |requested|
  {
    if requested == [] {
      assert Contents(requested) == [];
    } else {
      var n := |requested| - 1;
      PlacedCount(requested[..n], placed[..n], c);
      assert Contents(requested) == Contents(requested[..n]) + [requested[n].content];
      var before := PlacedWith(requested[..n], placed[..n], c);
      assert placed[n] !in before;
      if requested[n].content == c {
        assert PlacedWith(requested, placed, c) == before + {placed[n]};
      } else {
        assert PlacedWith(requested, placed, c) == before;
      }
    }
  }

  /**
   After reconciliation the package's rows hold exactly the requested contents: each content as often
   as it was requested, even with repeated or unknown ids in the request.
   */
  lemma {:induction false} ReconciledIsMultisetEqual(rows: map<int, FileRow>, package: string,
      requested: seq<FileRequest>, placed: seq<int>, c: Content)
    requires Reconciled(rows, package, requested, placed)
    ensures |Copies(rows, package, c)| == multiset(Contents(requested))[c]
  {
    PlacedCount(requested, placed, c);
    forall id
      ensures id in Copies(rows, package, c) <==> id in PlacedWith(requested, placed, c)
    {
      if id in Copies(rows, package, c) {
        assert id in RowsOf(rows, package);
        var k :| 0 <= k < |placed| && placed[k] == id;
      }
    }
    assert Copies(rows, package, c) == PlacedWith(requested, placed, c);
  }

  function NamedRows(requested: seq<FileRequest>): set<int> {
    set k | 0 <= k < |requested| :: requested[k].id
  }

  /** Saving what is already there changes nothing: every request names its row and repeats its content. */
  lemma {:induction false} SavingUnchangedFilesKeepsRows(before: map<int, FileRow>, next: int, after: map<int, FileRow>,
                                                         package: string, requested: seq<FileRequest>, placed: seq<int>)
    requires forall i, j | 0 <= i < j < |requested| :: requested[i].id != requested[j].id
    requires forall k | 0 <= k < |requested| ::
             requested[k].id in before && before[requested[k].id] == FileRow(package, requested[k].content)
    requires RowsOf(before, package) == NamedRows(requested)
    requires Reconciled(after, package, requested, placed)
    requires PlacedWell(before, next, package, requested, placed) && OthersSame(before, after, package)
    ensures after == before
  {
    forall k | 0 <= k < |requested|
      ensures placed[k] == requested[k].id
    {
      assert requested[k].id in NamedRows(requested);
      assert KeepsRow(before, package, requested, k);
    }
    forall id | id in before && before[id].package == package
      ensures id in after && after[id] == before[id]
    {
      assert id in RowsOf(before, package);
      var k :| 0 <= k < |requested| && requested[k].id == id;
      assert placed[k] == id;
    }
    forall id | id in after && after[id].package == package
      ensures id in before
    {
      assert id in RowsOf(after, package);
      var k :| 0 <= k < |placed| && placed[k] == id;
      assert requested[k].id == id;
    }
    assert forall id :: id in after <==> id in before;
    assert forall id | id in before :: after[id] == before[id];
  }
}
