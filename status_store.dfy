/**
 * The `pasos` table and the persisting half of the status job
 * (`actualizar_estado`), plus `api_paso`, which reads the first row.
 *
 * The job always writes: it takes the first row, or creates one named
 * "Cristo Redentor" when the table is empty, and stores the extracted
 * status, freshness and hours with the page's address as the source. The
 * job never adds a second row.
 */
module StatusStore {
  import opened Wrappers
  import opened StatusExtraction

  /** The page the status is read from. */
  const SourceUrl: string := "https://www.argentina.gob.ar/seguridad/pasosinternacionales/detalle/ruta/29/Cristo-Redentor"

  /** The name of the crossing row the job creates. */
  const CrossingName: string := "Cristo Redentor"

  /** A row of the `pasos` table; the nullable text columns are options. */
  datatype Paso = Paso(
    id: nat,
    nombre: string,
    estado: Option<string>,
    horarioAtencion: Option<string>,
    actualizado: Option<string>,
    fuente: Option<string>)

  /** The table's rows in their stored order, and the next identifier to hand out. */
  datatype Passes = Passes(rows: seq<Paso>, nextId: nat)

  /** Identifiers and names are unique and every identifier was handed out. */
  ghost predicate WellFormed(t: Passes)
  {
    && (forall i, j :: 0 <= i < j < |t.rows| ==> t.rows[i].id != t.rows[j].id)
    && (forall i, j :: 0 <= i < j < |t.rows| ==> t.rows[i].nombre != t.rows[j].nombre)
    && (forall i :: 0 <= i < |t.rows| ==> t.rows[i].id < t.nextId)
  }

  /** The row with the extracted texts and the source stored in it. */
  function Stamp(p: Paso, s: Snapshot): (r: Paso)
    ensures r.id == p.id && r.nombre == p.nombre
    ensures r.estado == Some(s.estado) && r.actualizado == Some(s.actualizado)
    ensures r.horarioAtencion == Some(s.horarioAtencion) && r.fuente == Some(SourceUrl)
  {
    p.(estado := Some(s.estado), horarioAtencion := Some(s.horarioAtencion),
       actualizado := Some(s.actualizado), fuente := Some(SourceUrl))
  }

  /** The persisting step of the job: stamp the first row, or add a stamped new crossing. */
  function RecordStatus(t: Passes, s: Snapshot): Passes
  {
    if t.rows == [] then
      Passes([Stamp(Paso(t.nextId, CrossingName, None, None, None, None), s)], t.nextId + 1)
    else
      Passes(t.rows[0 := Stamp(t.rows[0], s)], t.nextId)
  }

  /** The job's whole effect on the table for a fetch outcome. */
  function StatusRun(t: Passes, page: PageFetch): Passes
  {
    RecordStatus(t, Extract(page))
  }

  // ---------------------------------------------------------------------
  // What the status job promises
  // ---------------------------------------------------------------------

  /**
   * Recording creates a row only in an empty table; otherwise the first row
   * keeps its identity and every other row is left as it was.
   */
  lemma RecordKeepsRows(t: Passes, s: Snapshot)
    ensures |RecordStatus(t, s).rows| == if t.rows == [] then 1 else |t.rows|
    ensures t.rows == [] ==> RecordStatus(t, s).rows[0].nombre == CrossingName
    ensures t.rows != [] ==> RecordStatus(t, s).rows[0].id == t.rows[0].id
    ensures t.rows != [] ==> RecordStatus(t, s).rows[0].nombre == t.rows[0].nombre
    ensures forall i :: 1 <= i < |t.rows| ==> RecordStatus(t, s).rows[i] == t.rows[i]
  {
  }

  /** The first row afterwards carries exactly the extracted texts and the source address. */
  lemma RecordStoresSnapshot(t: Passes, s: Snapshot)
    ensures RecordStatus(t, s).rows != []
    ensures RecordStatus(t, s).rows[0].estado == Some(s.estado)
    ensures RecordStatus(t, s).rows[0].actualizado == Some(s.actualizado)
    ensures RecordStatus(t, s).rows[0].horarioAtencion == Some(s.horarioAtencion)
    ensures RecordStatus(t, s).rows[0].fuente == Some(SourceUrl)
  {
  }

  /** Recording keeps the table well formed. */
  lemma RecordPreservesWellFormed(t: Passes, s: Snapshot)
    requires WellFormed(t)
    ensures WellFormed(RecordStatus(t, s))
  {
    var r := RecordStatus(t, s);
    if t.rows != [] {
      forall i, j | 0 <= i < j < |r.rows|
        ensures r.rows[i].id != r.rows[j].id && r.rows[i].nombre != r.rows[j].nombre
      {
        assert i == 0 ==> r.rows[i].id == t.rows[0].id && r.rows[i].nombre == t.rows[0].nombre;
        assert r.rows[j] == t.rows[j];
      }
      assert forall i :: 0 <= i < |r.rows| ==> r.rows[i].id == t.rows[i].id;
    }
  }

  /** The table after the job has run once per page, in order. */
  function Runs(t: Passes, pages: seq<PageFetch>): Passes
    decreases |pages|
  {
    if pages == [] then t else StatusRun(Runs(t, pages[..|pages| - 1]), pages[|pages| - 1])
  }

  /**
   * However often the job runs, the row count only ever goes from 0 to 1:
   * an empty table ends with one row, any other keeps its size.
   */
  lemma {:induction false} RunsOnlyCreateFirstRow(t: Passes, pages: seq<PageFetch>)
    ensures |Runs(t, pages).rows| == if pages != [] && t.rows == [] then 1 else |t.rows|
    decreases |pages|
  {
    if pages != [] {
      var before := Runs(t, pages[..|pages| - 1]);
      RunsOnlyCreateFirstRow(t, pages[..|pages| - 1]);
      RecordKeepsRows(before, Extract(pages[|pages| - 1]));
    }
  }

  /** A page without a status span still gets its row written, with the fallback status. */
  lemma DegradedPageIsPersisted(t: Passes, nodes: seq<Node>)
    requires forall k :: 0 <= k < |nodes| ==> !IsStatusSpan(nodes[k])
    ensures StatusRun(t, Fetched(nodes)).rows != []
    ensures StatusRun(t, Fetched(nodes)).rows[0].estado == Some(StatusNotFound)
    ensures StatusRun(t, Fetched(nodes)).rows[0].actualizado == Some(NoTimeYet)
  {
    StatusFromFirstSpan(nodes);
    RecordStoresSnapshot(t, Extract(Fetched(nodes)));
  }

  /** Running the job again on the same page changes nothing. */
  lemma StatusRunIdempotent(t: Passes, page: PageFetch)
    ensures StatusRun(StatusRun(t, page), page) == StatusRun(t, page)
  {
    var once := StatusRun(t, page);
    assert once.rows != [];
    assert Stamp(once.rows[0], Extract(page)) == once.rows[0];
    assert once.rows[0 := once.rows[0]] == once.rows;
  }

  // ---------------------------------------------------------------------
  // The table as the application holds it
  // ---------------------------------------------------------------------

  /** The `pasos` table. */
  class PasoTable {
    var rows: seq<Paso>
    var nextId: nat

    function State(): Passes
      reads this
    {
      Passes(rows, nextId)
    }

    ghost predicate Valid()
      reads this
    {
      WellFormed(State())
    }

    /** An empty table. */
    constructor ()
      ensures rows == [] && nextId == 0 && Valid()
    {
      rows := [];
      nextId := 0;
    }

    /** `Paso.query.first()`, as `api_paso` serves it: the first row, or none (a 404). */
    method First() returns (r: Option<Paso>)
      ensures r.None? <==> rows == []
      ensures r.Some? ==> |rows| > 0 && r.value == rows[0]
    {
      if rows == [] {
        r := None;
      } else {
        r := Some(rows[0]);
      }
    }

    /** `actualizar_estado`: extract the texts from the fetch outcome and store them in the first row. */
    method SyncStatus(page: PageFetch) returns (stored: Paso)
      requires Valid()
      modifies this
      ensures State() == StatusRun(old(State()), page)
      ensures Valid()
      ensures rows != [] && stored == rows[0]
    {
      var snapshot := Extract(page);
      var existing := First();
      var paso: Paso;
      if existing.None? {
        paso := Paso(nextId, CrossingName, None, None, None, None);
        nextId := nextId + 1;
        paso := Stamp(paso, snapshot);
        rows := [paso];
      } else {
        paso := Stamp(existing.value, snapshot);
        rows := rows[0 := paso];
      }
      RecordPreservesWellFormed(old(State()), snapshot);
      stored := paso;
    }
  }
}
