/**
  Jobs and job events: the filtered select, and its pages of at most 200 jobs or 500 events.
*/
module JobPages {
  import opened Outcomes
  import opened Paging
  import opened CursorTexts
  import opened Sequences
  import opened Timestamps

  datatype Job = Job(id: string, capability: string, source: string, status: string, schedule: Option<string>,
      created: string)

  // An empty list filters nothing.
  datatype JobFilter = JobFilter(statuses: seq<string>, sources: seq<string>, capabilities: seq<string>,
      schedule: Option<string>)

  datatype JobEvent = JobEvent(id: string, job: string, kind: string, created: string)

  predicate InFilter(values: seq<string>, value: string) { values == [] || value in values }

  predicate Passes(f: JobFilter, j: Job) {
    && InFilter(f.statuses, j.status) && InFilter(f.sources, j.source) && InFilter(f.capabilities, j.capability)
    && (f.schedule.Some? ==> j.schedule == f.schedule)
  }

  function Passing(f: JobFilter): Job -> bool { (j: Job) => Passes(f, j) }

  function JobKey(j: Job): Key { Stamp(j.created, j.id) }

  function OfJob(job: string): JobEvent -> bool { (e: JobEvent) => e.job == job }

  function EventKey(e: JobEvent): Key { Stamp(e.created, e.id) }

  // What list_jobs may return: the passing jobs, newest first, ties in any order.
  ghost predicate UnpagedJobs(table: seq<Job>, f: JobFilter, rows: seq<Job>) {
    && (forall j :: j in rows <==>
          && j in table && (f.statuses != [] ==> j.status in f.statuses) && (f.sources != [] ==> j.source in f.sources)
          && (f.capabilities != [] ==> j.capability in f.capabilities) && f.schedule in {None, j.schedule})
    && (forall i, k :: 0 <= i < k < |rows| ==> rows[i] != rows[k])
    && (forall i, k :: 0 <= i < k < |rows| ==> !Less(rows[i].created, rows[k].created))
  }

  ghost predicate UnpagedEvents(table: seq<JobEvent>, job: string, rows: seq<JobEvent>) {
    && (forall e :: e in rows <==> e in table && e.job == job)
    && (forall i, k :: 0 <= i < k < |rows| ==> rows[i] != rows[k])
    && (forall i, k :: 0 <= i < k < |rows| ==> !Less(rows[k].created, rows[i].created))
  }

  ghost predicate UniqueJobs(table: seq<Job>) {
    forall i, k :: 0 <= i < k < |table| ==> table[i].id != table[k].id
  }

  ghost predicate UniqueEvents(table: seq<JobEvent>) {
    forall i, k :: 0 <= i < k < |table| ==> table[i].id != table[k].id
  }

  ghost predicate SameTable<T(!new)>(tables: seq<seq<T>>, table: seq<T>) {
    forall k :: 0 <= k < |tables| ==> tables[k] == table
  }

  /**
    Following the cursors of any filtered job list to the end gives one of the orders that the
    unpaged list may have: every passing job once, newest first, for any limit. Ties are included, the
    highest id first.
  */
  lemma JobPagesAreTheList(tables: seq<seq<Job>>, table: seq<Job>, f: JobFilter, limit: int, pages: seq<seq<Job>>)
    requires UniqueJobs(table) && SameTable(tables, table)
    requires Walk(tables, JobKey, Passing(f), None, limit, 200, pages)
    ensures UnpagedJobs(table, f, Concat(pages))
    ensures forall i, k :: 0 <= i < k < |Concat(pages)| && Concat(pages)[i].created == Concat(pages)[k].created ==>
        Less(Concat(pages)[k].id, Concat(pages)[i].id)
    ensures |pages| > 1 ==> forall k :: 0 <= k < |pages| ==> pages[k] != []
  {
    WalkListsAll(tables, JobKey, Passing(f), None, limit, 200, pages);
    ListingIsSorted(table, JobKey, Passing(f), None);
    var rows := Concat(pages);
    forall i, k | 0 <= i < k < |rows| ensures rows[i] != rows[k] && !Less(rows[i].created, rows[k].created) {
      KeyTotal(JobKey(rows[i]), JobKey(rows[k]));
      LessTotal(rows[i].created, rows[k].created);
    }
    assert forall j :: Wanted(j, JobKey, Passing(f), None) <==> Passes(f, j);
  }

  /** The same by the cursor texts that the list hands out and takes back. */
  lemma JobTextPagesAreTheList(
      loads: Loads, tables: seq<seq<Job>>, table: seq<Job>, f: JobFilter, limit: int, pages: seq<seq<Job>>)
    requires forall created, id :: ReadsBack(loads, Stamp(created, id))
    requires UniqueJobs(table) && SameTable(tables, table)
    requires TextWalk(loads, tables, JobKey, Passing(f), false, "", limit, 200, pages)
    ensures UnpagedJobs(table, f, Concat(pages))
  {
    TextWalkIsWalk(loads, tables, JobKey, Passing(f), false, "", limit, 200, pages, None);
    JobPagesAreTheList(tables, table, f, limit, pages);
  }

  // So following them works whatever is stored: no fetch of the walk is refused.
  lemma JobTextWalkEnds(loads: Loads, table: seq<Job>, f: JobFilter, limit: int)
    requires forall created, id :: ReadsBack(loads, Stamp(created, id))
    requires UniqueJobs(table) && forall j :: j in table ==> PlainStamp(j.created, j.id)
    ensures exists pages: seq<seq<Job>> ::
      TextWalk(loads, seq(|pages|, _ => table), JobKey, Passing(f), false, "", limit, 200, pages)
  {
    forall j | j in table ensures Fits(JobKey(j)) { PrintableKeysFit(j.created, j.id); }
    TextWalkEnds(loads, table, JobKey, Passing(f), false, limit, 200);
  }

  // Printable text, of at most 32 characters for the instant and for the id.
  predicate PlainStamp(created: string, id: string) {
    && |created| <= 32 && |id| <= 32
    && (forall i :: 0 <= i < |created| ==> Printable(created[i]))
    && (forall i :: 0 <= i < |id| ==> Printable(id[i]))
  }

  // The same for a job's events, whose pages are shown oldest first.
  lemma EventPagesAreTheList(tables: seq<seq<JobEvent>>, table: seq<JobEvent>, job: string, limit: int,
      pages: seq<seq<JobEvent>>)
    requires UniqueEvents(table) && SameTable(tables, table)
    requires Walk(tables, EventKey, OfJob(job), None, limit, 500, pages)
    ensures UnpagedEvents(table, job, Reverse(Concat(pages)))
    ensures |pages| > 1 ==> forall k :: 0 <= k < |pages| ==> pages[k] != []
  {
    WalkListsAll(tables, EventKey, OfJob(job), None, limit, 500, pages);
    ListingIsSorted(table, EventKey, OfJob(job), None);
    var rows, shown := Concat(pages), Reverse(Concat(pages));
    ReverseHas(rows);
    forall i, k | 0 <= i < k < |shown| ensures shown[i] != shown[k] && !Less(shown[k].created, shown[i].created) {
      ReverseAt(rows, i);
      ReverseAt(rows, k);
      var a, b := rows[|rows| - 1 - k], rows[|rows| - 1 - i];
      KeyTotal(EventKey(a), EventKey(b));
      LessTotal(a.created, b.created);
    }
    assert forall e :: Wanted(e, EventKey, OfJob(job), None) <==> e.job == job;
  }
}
