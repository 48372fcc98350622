/**
 * The batch engine of the gateway (app/utils/device_queue.py): queue one
 * device creation per distinct id, and look up or delete a list of devices
 * one by one, collecting every per-device failure instead of stopping.
 *
 * The registry is seen through `replyTo`: `replyTo(i)` is the reply the
 * registry gives to the `i`-th request of the batch, so two requests for
 * the same id may be answered differently, as two HTTP calls can be.
 */
module DeviceQueue {
  import opened Wrappers
  import opened Filtering
  import opened RegistryHttp
  import CsvParser

  type DeviceRecord = CsvParser.DeviceRecord

  /** A queued call `create_device(pod_id, status)`. */
  datatype Task = CreateDevice(podId: string, status: Option<string>)

  /** FastAPI's `BackgroundTasks`: the calls queued to run after the response is sent. */
  class BackgroundTasks {
    var tasks: seq<Task>

    constructor()
      ensures tasks == []
    {
      tasks := [];
    }

    method AddTask(t: Task)
      modifies this
      ensures tasks == old(tasks) + [t]
    {
      tasks := tasks + [t];
    }
  }

  /** The ids of the records, in order. */
  function Ids(devices: seq<DeviceRecord>): (ids: seq<string>)
    ensures |ids| == |devices|
    ensures forall i :: 0 <= i < |devices| ==> ids[i] == devices[i].id
  {
    seq(|devices|, i requires 0 <= i < |devices| => devices[i].id)
  }

  /** No id occurs twice. */
  predicate Distinct(ids: seq<string>) {
    forall i, j :: 0 <= i < j < |ids| ==> ids[i] != ids[j]
  }

  // ---------------------------------------------------------- enqueue_devices

  /** Position `i` is the first occurrence of its id. */
  predicate IsFirst(ids: seq<string>, i: nat)
    requires i < |ids|
  {
    ids[i] !in ids[..i]
  }

  /** The ids the loop appends to `created`: each first occurrence. */
  function FirstMarks(ids: seq<string>): (r: seq<Option<string>>)
    ensures |r| == |ids|
    ensures forall i :: 0 <= i < |ids| ==> r[i] == if IsFirst(ids, i) then Some(ids[i]) else None
  {
    seq(|ids|, i requires 0 <= i < |ids| => if IsFirst(ids, i) then Some(ids[i]) else None)
  }

  /** The ids the loop appends to `duplicated`: each later occurrence. */
  function RepeatMarks(ids: seq<string>): (r: seq<Option<string>>)
    ensures |r| == |ids|
    ensures forall i :: 0 <= i < |ids| ==> r[i] == if IsFirst(ids, i) then None else Some(ids[i])
  {
    seq(|ids|, i requires 0 <= i < |ids| => if IsFirst(ids, i) then None else Some(ids[i]))
  }

  /** The tasks the loop queues: one per first occurrence, with that record's status. */
  function TaskMarks(devices: seq<DeviceRecord>): (r: seq<Option<Task>>)
    ensures |r| == |devices|
    ensures forall i :: 0 <= i < |devices| ==>
              r[i] == if IsFirst(Ids(devices), i) then Some(CreateDevice(devices[i].id, devices[i].status)) else None
  {
    var ids := Ids(devices);
    seq(|devices|, i requires 0 <= i < |devices| =>
      if IsFirst(ids, i) then Some(CreateDevice(devices[i].id, devices[i].status)) else None)
  }

  /** `created`: the distinct ids in order of first occurrence. */
  function Created(ids: seq<string>): (r: seq<string>)
    ensures |r| <= |ids|
  {
    Kept(FirstMarks(ids))
  }

  /** `duplicated`: every occurrence of an id after its first, in input order. */
  function Duplicated(ids: seq<string>): (r: seq<string>)
    ensures |r| <= |ids|
  {
    Kept(RepeatMarks(ids))
  }

  /** The tasks `enqueue_devices` adds. */
  function Queued(devices: seq<DeviceRecord>): (r: seq<Task>)
    ensures |r| <= |devices|
  {
    Kept(TaskMarks(devices))
  }

  /**
   * `enqueue_devices`: walks the records once, queueing `create_device` for
   * the first record of each id and reporting every later one as duplicated.
   */
  method EnqueueDevices(devices: seq<DeviceRecord>, bg: BackgroundTasks) returns (created: seq<string>, duplicated: seq<string>)
    modifies bg
    ensures created == Created(Ids(devices))
    ensures duplicated == Duplicated(Ids(devices))
    ensures bg.tasks == old(bg.tasks) + Queued(devices)
  {
    ghost var ids, fm, rm, tm := Ids(devices), FirstMarks(Ids(devices)), RepeatMarks(Ids(devices)), TaskMarks(devices);
    ghost var before := bg.tasks;
    var seen: set<string> := {};
    created := [];
    duplicated := [];
    for i := 0 to |devices|
      invariant seen == SeenSet(ids, i)
      invariant created == Kept(fm[..i])
      invariant duplicated == Kept(rm[..i])
      invariant bg.tasks == before + Kept(tm[..i])
    {
      EnqueueKeepsInvariant(devices, ids, fm, rm, tm, i, created, duplicated, before, bg.tasks);
      var podId := devices[i].id;
      var status := devices[i].status;
      if podId in seen {
        duplicated := duplicated + [podId];
        continue;
      }
      seen := seen + {podId};
      bg.AddTask(CreateDevice(podId, status));
      created := created + [podId];
    }
    WholePrefix(fm);
    WholePrefix(rm);
    WholePrefix(tm);
  }

  /** The ids of the first `n` records: the set `seen` after `n` iterations. */
  function SeenSet(ids: seq<string>, n: nat): set<string>
    requires n <= |ids|
  {
    if n == 0 then {} else SeenSet(ids, n - 1) + {ids[n - 1]}
  }

  /** `SeenSet(ids, n)` holds exactly the ids among the first `n`. */
  lemma {:induction false} SeenSetIsPrefix(ids: seq<string>, n: nat)
    requires n <= |ids|
    ensures forall x :: x in SeenSet(ids, n) <==> x in ids[..n]
  {
    if n > 0 {
      SeenSetIsPrefix(ids, n - 1);
      assert ids[..n] == ids[..n - 1] + [ids[n - 1]];
    }
  }

  /** Both branches of iteration `i` keep the loop invariant of `EnqueueDevices`. */
  lemma EnqueueKeepsInvariant(devices: seq<DeviceRecord>, ids: seq<string>, fm: seq<Option<string>>,
                              rm: seq<Option<string>>, tm: seq<Option<Task>>, i: nat,
                              created: seq<string>, duplicated: seq<string>, before: seq<Task>, tasks: seq<Task>)
    requires ids == Ids(devices) && fm == FirstMarks(ids) && rm == RepeatMarks(ids) && tm == TaskMarks(devices)
    requires i < |devices|
    requires created == Kept(fm[..i]) && duplicated == Kept(rm[..i]) && tasks == before + Kept(tm[..i])
    ensures var id := devices[i].id;
            id in SeenSet(ids, i) ==>
              && created == Kept(fm[..i + 1])
              && duplicated + [id] == Kept(rm[..i + 1])
              && tasks == before + Kept(tm[..i + 1])
    ensures var id := devices[i].id;
            var t := CreateDevice(id, devices[i].status);
            id !in SeenSet(ids, i) ==>
              && created + [id] == Kept(fm[..i + 1])
              && duplicated == Kept(rm[..i + 1])
              && tasks + [t] == before + Kept(tm[..i + 1])
    ensures SeenSet(ids, i + 1) == SeenSet(ids, i) + {devices[i].id}
  {
    EnqueueStep(devices, ids, fm, rm, tm, i);
    SeenSetIsPrefix(ids, i);
    AppendAfterConcat(before, Kept(tm[..i]), CreateDevice(devices[i].id, devices[i].status));
  }

  /** What iteration `i` of the enqueue loop adds to each list. */
  lemma EnqueueStep(devices: seq<DeviceRecord>, ids: seq<string>, fm: seq<Option<string>>, rm: seq<Option<string>>,
                    tm: seq<Option<Task>>, i: nat)
    requires ids == Ids(devices) && fm == FirstMarks(ids) && rm == RepeatMarks(ids) && tm == TaskMarks(devices)
    requires i < |devices|
    ensures ids[i] == devices[i].id
    ensures IsFirst(ids, i) ==>
              && Kept(fm[..i + 1]) == Kept(fm[..i]) + [devices[i].id]
              && Kept(rm[..i + 1]) == Kept(rm[..i])
              && Kept(tm[..i + 1]) == Kept(tm[..i]) + [CreateDevice(devices[i].id, devices[i].status)]
    ensures !IsFirst(ids, i) ==>
              && Kept(fm[..i + 1]) == Kept(fm[..i])
              && Kept(rm[..i + 1]) == Kept(rm[..i]) + [devices[i].id]
              && Kept(tm[..i + 1]) == Kept(tm[..i])
  {
    KeptPrefixStep(fm, i);
    KeptPrefixStep(rm, i);
    KeptPrefixStep(tm, i);
  }

  /** The position of the first occurrence of `x`. */
  function FirstIndex(ids: seq<string>, x: string): (r: nat)
    requires x in ids
    ensures r < |ids| && ids[r] == x && x !in ids[..r]
  {
    var n := |ids| - 1;
    if x in ids[..n] then
      var r := FirstIndex(ids[..n], x);
      assert ids[..n][..r] == ids[..r];
      r
    else n
  }

  /** The first occurrence is the only position holding `x` with no `x` before it. */
  lemma FirstIndexUnique(ids: seq<string>, i: nat)
    requires i < |ids| && IsFirst(ids, i)
    ensures FirstIndex(ids, ids[i]) == i
  {
    var f := FirstIndex(ids, ids[i]);
    assert f == i;
  }

  /** Every input record is accounted for exactly once: `len(created) + len(duplicated) == len(devices)`. */
  lemma CreatedPlusDuplicatedIsAll(ids: seq<string>)
    ensures |Created(ids)| + |Duplicated(ids)| == |ids|
  {
    KeptComplementLength(FirstMarks(ids), RepeatMarks(ids));
  }

  /** `created` lists first occurrences: it holds no id twice and every input id once. */
  lemma CreatedIsDistinctIds(ids: seq<string>)
    ensures Distinct(Created(ids))
    ensures forall x :: x in Created(ids) <==> x in ids
  {
    var c := Created(ids);
    var origin := KeptOrigins(FirstMarks(ids));
    forall k, l | 0 <= k < l < |c|
      ensures c[k] != c[l]
    {
      var i, j := origin[k], origin[l];
      assert i < j && ids[i] == c[k] && ids[j] == c[l] && IsFirst(ids, j);
      assert ids[..j][i] == ids[i];
    }
    forall x | x in ids
      ensures x in c
    {
      var f := FirstIndex(ids, x);
      assert FirstMarks(ids)[f].Some?;
      var k :| 0 <= k < |origin| && origin[k] == f;
      assert c[k] == x;
    }
  }

  /** `created` keeps the ids in the order of their first occurrence. */
  lemma CreatedInFirstOccurrenceOrder(ids: seq<string>)
    ensures forall x :: x in Created(ids) ==> x in ids
    ensures forall k, l :: 0 <= k < l < |Created(ids)| ==>
              FirstIndex(ids, Created(ids)[k]) < FirstIndex(ids, Created(ids)[l])
  {
    CreatedIsDistinctIds(ids);
    var c := Created(ids);
    var origin := KeptOrigins(FirstMarks(ids));
    forall k | 0 <= k < |c|
      ensures FirstIndex(ids, c[k]) == origin[k]
    {
      FirstIndexUnique(ids, origin[k]);
    }
  }

  /**
   * `duplicated` is exactly the occurrences of ids after their first, in
   * input order: it is read off at increasing positions `origin`, each a
   * repeat, and every repeat position is one of them.
   */
  lemma DuplicatedAreLaterOccurrences(ids: seq<string>) returns (origin: seq<nat>)
    ensures |origin| == |Duplicated(ids)|
    ensures forall k :: 0 <= k < |origin| ==>
              origin[k] < |ids| && !IsFirst(ids, origin[k]) && Duplicated(ids)[k] == ids[origin[k]]
    ensures forall k, l :: 0 <= k < l < |origin| ==> origin[k] < origin[l]
    ensures forall i :: 0 <= i < |ids| && !IsFirst(ids, i) ==> i in origin
  {
    origin := KeptOrigins(RepeatMarks(ids));
    forall i | 0 <= i < |ids| && !IsFirst(ids, i)
      ensures i in origin
    {
      assert RepeatMarks(ids)[i].Some?;
    }
  }

  /** Every duplicated id was also created. */
  lemma DuplicatedWereCreated(ids: seq<string>)
    ensures forall x :: x in Duplicated(ids) ==> x in Created(ids)
  {
    var origin := DuplicatedAreLaterOccurrences(ids);
    CreatedIsDistinctIds(ids);
    forall x | x in Duplicated(ids)
      ensures x in ids
    {
      var k :| 0 <= k < |Duplicated(ids)| && Duplicated(ids)[k] == x;
      assert ids[origin[k]] == x;
    }
  }

  /** One task is queued per created id, in the same order. */
  lemma QueuedFollowsCreated(devices: seq<DeviceRecord>)
    ensures |Queued(devices)| == |Created(Ids(devices))|
    ensures forall k :: 0 <= k < |Queued(devices)| ==> Queued(devices)[k].podId == Created(Ids(devices))[k]
  {
    KeptMap(TaskMarks(devices), FirstMarks(Ids(devices)), (t: Task) => t.podId);
  }

  /** Each queued task carries the status of its id's first record; later statuses are discarded. */
  lemma QueuedCarriesFirstStatus(devices: seq<DeviceRecord>)
    ensures forall k :: 0 <= k < |Queued(devices)| ==>
              Queued(devices)[k].podId in Ids(devices) &&
              Queued(devices)[k].status == devices[FirstIndex(Ids(devices), Queued(devices)[k].podId)].status
  {
    var ids := Ids(devices);
    var q := Queued(devices);
    var origin := KeptOrigins(TaskMarks(devices));
    forall k | 0 <= k < |q|
      ensures q[k].podId in ids && q[k].status == devices[FirstIndex(ids, q[k].podId)].status
    {
      var i := origin[k];
      assert IsFirst(ids, i) && q[k] == CreateDevice(devices[i].id, devices[i].status);
      FirstIndexUnique(ids, i);
    }
  }

  // ------------------------------------------------------------ Python dicts

  /**
   * A Python `dict` with string keys: its entries, and its keys in the order
   * they were first inserted, which is the order the JSON reply lists them in.
   */
  datatype Dict<V> = Dict(keys: seq<string>, entries: map<string, V>)

  /** `d[k] = v`: a new key goes to the end of the order; a key already present keeps its place. */
  function Put<V>(d: Dict<V>, k: string, v: V): (r: Dict<V>)
    ensures r.entries == d.entries[k := v]
    ensures |d.keys| <= |r.keys| <= |d.keys| + 1 && r.keys[..|d.keys|] == d.keys
  {
    Dict(if k in d.entries then d.keys else d.keys + [k], d.entries[k := v])
  }

  /** Seeing one more id adds it to the first occurrences exactly when it is new. */
  lemma CreatedSnoc(xs: seq<string>, x: string)
    ensures Created(xs + [x]) == if x in xs then Created(xs) else Created(xs) + [x]
  {
    var ys := xs + [x];
    var fm := FirstMarks(ys);
    forall i | 0 <= i < |xs|
      ensures fm[..|xs|][i] == FirstMarks(xs)[i]
    {
      assert ys[..i] == xs[..i];
    }
    assert fm[..|xs|] == FirstMarks(xs);
    assert ys[..|xs|] == xs;
  }

  /**
   * `d` is the dict a loop builds by setting the keys `xs` in turn: it holds
   * exactly those keys, listed once each in the order of first insertion,
   * which is the order `Created` gives.
   */
  ghost predicate InsertedInOrder<V>(d: Dict<V>, xs: seq<string>) {
    d.keys == Created(xs) && (forall x :: x in d.entries <==> x in xs)
  }

  /**
   * A loop step that sets `d[x] = v` when it marks `x`, and leaves `d` alone
   * otherwise, keeps the dict's keys in the order of first insertion.
   */
  lemma PutFollowsFirstInsertion<V>(d: Dict<V>, marks: seq<Option<string>>, m: Option<string>, v: V)
    requires InsertedInOrder(d, Kept(marks))
    ensures InsertedInOrder(if m.Some? then Put(d, m.value, v) else d, Kept(marks + [m]))
  {
    KeptSnoc(marks, m);
    if m.Some? {
      CreatedSnoc(Kept(marks), m.value);
    }
  }

  /** With no id repeated, the first occurrences are all the ids, in order. */
  lemma {:induction false} CreatedOfDistinct(xs: seq<string>)
    requires Distinct(xs)
    ensures Created(xs) == xs
  {
    if xs != [] {
      var n := |xs| - 1;
      CreatedOfDistinct(xs[..n]);
      assert xs[n] !in xs[..n];
      assert xs[..n] + [xs[n]] == xs;
      CreatedSnoc(xs[..n], xs[n]);
    }
  }

  /** Keeping, in order, some ids of a list without repeats gives a list without repeats. */
  lemma KeptIdsDistinct(ids: seq<string>, marks: seq<Option<string>>)
    requires |marks| == |ids| && Distinct(ids)
    requires forall i :: 0 <= i < |marks| && marks[i].Some? ==> marks[i].value == ids[i]
    ensures Distinct(Kept(marks))
  {
    var origin := KeptOrigins(marks);
    forall k, l | 0 <= k < l < |Kept(marks)|
      ensures Kept(marks)[k] != Kept(marks)[l]
    {
      assert origin[k] < origin[l];
      assert Kept(marks)[k] == ids[origin[k]] && Kept(marks)[l] == ids[origin[l]];
    }
  }

  // -------------------------------------------------------- fetch_devices_info

  /** The dictionary `fetch_devices_info` returns; an error is kept as the exception, not its text. */
  datatype FetchReport = FetchReport(found: Dict<string>, notFound: seq<string>, errors: Dict<RemoteError>)

  /** The report after the first `n` lookups. */
  function FetchAll(podIds: seq<string>, replyTo: nat -> Reply, n: nat): (r: FetchReport)
    requires n <= |podIds|
    ensures |r.notFound| <= n
  {
    if n == 0 then FetchReport(Dict([], map[]), [], Dict([], map[]))
    else FetchRecord(FetchAll(podIds, replyTo, n - 1), podIds[n - 1], GetIdentityOutcome(replyTo(n - 1)))
  }

  /** One lookup's effect on the report: the id goes under the key its outcome names. */
  function FetchRecord(r: FetchReport, id: string, outcome: Result<Option<string>, RemoteError>): FetchReport
  {
    match outcome
    case Failure(e) => r.(errors := Put(r.errors, id, e))
    case Success(None) => r.(notFound := r.notFound + [id])
    case Success(Some(device)) => r.(found := Put(r.found, id, device))
  }

  /** The report records `id` exactly as the outcome of its lookup says. */
  predicate Classified(r: FetchReport, id: string, o: Result<Option<string>, RemoteError>)
  {
    && (id in r.found.entries <==> o.Success? && o.value.Some?)
    && (id in r.found.entries ==> r.found.entries[id] == o.value.value)
    && (id in r.notFound <==> o == Success(None))
    && (id in r.errors.entries <==> o.Failure?)
    && (id in r.errors.entries ==> r.errors.entries[id] == o.error)
  }

  /**
   * `fetch_devices_info`: looks every id up in turn; a lookup that raises is
   * recorded under `errors` and the loop goes on, so the call never raises.
   */
  method FetchDevicesInfo(podIds: seq<string>, replyTo: nat -> Reply) returns (report: FetchReport)
    ensures report == FetchAll(podIds, replyTo, |podIds|)
  {
    var found: Dict<string> := Dict([], map[]);
    var notFound: seq<string> := [];
    var errors: Dict<RemoteError> := Dict([], map[]);
    for i := 0 to |podIds|
      invariant FetchReport(found, notFound, errors) == FetchAll(podIds, replyTo, i)
    {
      var podId := podIds[i];
      var outcome := GetIdentityOutcome(replyTo(i));
      if outcome.Failure? {
        errors := Put(errors, podId, outcome.error);
      } else if outcome.value.None? {
        notFound := notFound + [podId];
      } else {
        found := Put(found, podId, outcome.value.value);
      }
    }
    report := FetchReport(found, notFound, errors);
  }

  /** Every key or entry of the report is one of the ids looked up. */
  lemma {:induction false} FetchReportsOnlyInputIds(podIds: seq<string>, replyTo: nat -> Reply, n: nat)
    requires n <= |podIds|
    ensures forall x :: x in FetchAll(podIds, replyTo, n).found.entries ==> x in podIds[..n]
    ensures forall x :: x in FetchAll(podIds, replyTo, n).notFound ==> x in podIds[..n]
    ensures forall x :: x in FetchAll(podIds, replyTo, n).errors.entries ==> x in podIds[..n]
  {
    if n > 0 {
      FetchReportsOnlyInputIds(podIds, replyTo, n - 1);
      assert podIds[..n] == podIds[..n - 1] + [podIds[n - 1]];
    }
  }

  /**
   * For distinct ids, each id lands in exactly one of `found`, `not_found`
   * and `errors`, as its own lookup decided: found with the returned
   * document, not found when the lookup returned `None`, an error with the
   * exception it raised.
   */
  lemma {:induction false} FetchClassifiesEachId(podIds: seq<string>, replyTo: nat -> Reply, n: nat)
    requires n <= |podIds| && Distinct(podIds)
    ensures forall i :: 0 <= i < n ==>
              Classified(FetchAll(podIds, replyTo, n), podIds[i], GetIdentityOutcome(replyTo(i)))
  {
    if n > 0 {
      FetchClassifiesEachId(podIds, replyTo, n - 1);
      FetchClassifiesStep(podIds, replyTo, n);
    }
  }

  /** One more lookup keeps every earlier id classified and classifies the new one. */
  lemma FetchClassifiesStep(podIds: seq<string>, replyTo: nat -> Reply, n: nat)
    requires 0 < n <= |podIds| && Distinct(podIds)
    requires forall i :: 0 <= i < n - 1 ==>
               Classified(FetchAll(podIds, replyTo, n - 1), podIds[i], GetIdentityOutcome(replyTo(i)))
    ensures forall i :: 0 <= i < n ==>
              Classified(FetchAll(podIds, replyTo, n), podIds[i], GetIdentityOutcome(replyTo(i)))
  {
    var r := FetchAll(podIds, replyTo, n - 1);
    var id := podIds[n - 1];
    var o := GetIdentityOutcome(replyTo(n - 1));
    assert FetchAll(podIds, replyTo, n) == FetchRecord(r, id, o);
    FetchNewIdNotRecorded(podIds, replyTo, n);
    FetchRecordsNewId(r, id, o);
    forall i | 0 <= i < n - 1
      ensures Classified(FetchRecord(r, id, o), podIds[i], GetIdentityOutcome(replyTo(i)))
    {
      FetchRecordKeepsOthers(r, id, o, podIds[i], GetIdentityOutcome(replyTo(i)));
    }
  }

  /** With distinct ids, the id of lookup `n - 1` is in no part of the report of the lookups before it. */
  lemma FetchNewIdNotRecorded(podIds: seq<string>, replyTo: nat -> Reply, n: nat)
    requires 0 < n <= |podIds| && Distinct(podIds)
    ensures var r := FetchAll(podIds, replyTo, n - 1);
            podIds[n - 1] !in r.found.entries && podIds[n - 1] !in r.notFound && podIds[n - 1] !in r.errors.entries
  {
    FetchReportsOnlyInputIds(podIds, replyTo, n - 1);
    assert podIds[n - 1] !in podIds[..n - 1];
  }

  /** Recording a lookup of an id not seen before classifies it by its outcome. */
  lemma FetchRecordsNewId(r: FetchReport, id: string, o: Result<Option<string>, RemoteError>)
    requires id !in r.found.entries && id !in r.notFound && id !in r.errors.entries
    ensures Classified(FetchRecord(r, id, o), id, o)
  {
  }

  /** Recording a lookup leaves the classification of every other id alone. */
  lemma FetchRecordKeepsOthers(r: FetchReport, id: string, o: Result<Option<string>, RemoteError>,
                               x: string, ox: Result<Option<string>, RemoteError>)
    requires x != id && Classified(r, x, ox)
    ensures Classified(FetchRecord(r, id, o), x, ox)
  {
  }

  /** The lookups that found nothing, in input order. */
  function NotFoundMarks(podIds: seq<string>, replyTo: nat -> Reply, n: nat): (r: seq<Option<string>>)
    requires n <= |podIds|
    ensures |r| == n
    ensures forall i :: 0 <= i < n ==> r[i] == if GetIdentityOutcome(replyTo(i)) == Success(None) then Some(podIds[i]) else None
  {
    if n == 0 then []
    else
      var i := n - 1;
      NotFoundMarks(podIds, replyTo, i)
        + [if GetIdentityOutcome(replyTo(i)) == Success(None) then Some(podIds[i]) else None]
  }

  /** `not_found` lists the ids whose lookup returned `None`, in input order, whether or not ids repeat. */
  lemma {:induction false} FetchNotFoundInOrder(podIds: seq<string>, replyTo: nat -> Reply, n: nat)
    requires n <= |podIds|
    ensures FetchAll(podIds, replyTo, n).notFound == Kept(NotFoundMarks(podIds, replyTo, n))
  {
    if n > 0 {
      FetchNotFoundInOrder(podIds, replyTo, n - 1);
      var i := n - 1;
      KeptSnoc(NotFoundMarks(podIds, replyTo, i),
               if GetIdentityOutcome(replyTo(i)) == Success(None) then Some(podIds[i]) else None);
    }
  }

  /** The lookups that returned a document, in input order. */
  function FoundMarks(podIds: seq<string>, replyTo: nat -> Reply, n: nat): (r: seq<Option<string>>)
    requires n <= |podIds|
    ensures |r| == n
    ensures forall i :: 0 <= i < n ==>
              r[i] == if GetIdentityOutcome(replyTo(i)).Success? && GetIdentityOutcome(replyTo(i)).value.Some?
                      then Some(podIds[i]) else None
  {
    if n == 0 then []
    else
      var i := n - 1;
      var o := GetIdentityOutcome(replyTo(i));
      FoundMarks(podIds, replyTo, i) + [if o.Success? && o.value.Some? then Some(podIds[i]) else None]
  }

  /** The lookups that raised, in input order. */
  function LookupErrorMarks(podIds: seq<string>, replyTo: nat -> Reply, n: nat): (r: seq<Option<string>>)
    requires n <= |podIds|
    ensures |r| == n
    ensures forall i :: 0 <= i < n ==> r[i] == if GetIdentityOutcome(replyTo(i)).Failure? then Some(podIds[i]) else None
  {
    if n == 0 then []
    else
      var i := n - 1;
      LookupErrorMarks(podIds, replyTo, i) + [if GetIdentityOutcome(replyTo(i)).Failure? then Some(podIds[i]) else None]
  }

  /**
   * The keys of `found` are the ids whose lookup returned a document, in the
   * order of their first such lookup (plain input order when ids are
   * distinct); an id that is found again keeps its first place.
   */
  lemma {:induction false} FoundKeysInFirstOrder(podIds: seq<string>, replyTo: nat -> Reply, n: nat)
    requires n <= |podIds|
    ensures InsertedInOrder(FetchAll(podIds, replyTo, n).found, Kept(FoundMarks(podIds, replyTo, n)))
  {
    if n > 0 {
      FoundKeysInFirstOrder(podIds, replyTo, n - 1);
      var m, v := FetchStep(podIds, replyTo, n);
      PutFollowsFirstInsertion(FetchAll(podIds, replyTo, n - 1).found, FoundMarks(podIds, replyTo, n - 1), m, v);
    }
  }

  /** Lookup `n - 1` marks its id as found and sets it in `found`, exactly when it returned a document `v`. */
  lemma FetchStep(podIds: seq<string>, replyTo: nat -> Reply, n: nat) returns (m: Option<string>, v: string)
    requires 0 < n <= |podIds|
    ensures FoundMarks(podIds, replyTo, n) == FoundMarks(podIds, replyTo, n - 1) + [m]
    ensures var found := FetchAll(podIds, replyTo, n - 1).found;
            FetchAll(podIds, replyTo, n).found == if m.Some? then Put(found, m.value, v) else found
  {
    var o := GetIdentityOutcome(replyTo(n - 1));
    m := if o.Success? && o.value.Some? then Some(podIds[n - 1]) else None;
    v := if o.Success? && o.value.Some? then o.value.value else "";
  }

  /**
   * The keys of `errors` are the ids whose lookup raised, in the order of
   * their first failure (plain input order when ids are distinct).
   */
  lemma {:induction false} LookupErrorKeysInFirstOrder(podIds: seq<string>, replyTo: nat -> Reply, n: nat)
    requires n <= |podIds|
    ensures InsertedInOrder(FetchAll(podIds, replyTo, n).errors, Kept(LookupErrorMarks(podIds, replyTo, n)))
  {
    if n > 0 {
      LookupErrorKeysInFirstOrder(podIds, replyTo, n - 1);
      var m, v := LookupErrorStep(podIds, replyTo, n);
      PutFollowsFirstInsertion(FetchAll(podIds, replyTo, n - 1).errors, LookupErrorMarks(podIds, replyTo, n - 1), m, v);
    }
  }

  /** Lookup `n - 1` marks its id as failed and sets it in `errors`, exactly when it raised `v`. */
  lemma LookupErrorStep(podIds: seq<string>, replyTo: nat -> Reply, n: nat) returns (m: Option<string>, v: RemoteError)
    requires 0 < n <= |podIds|
    ensures LookupErrorMarks(podIds, replyTo, n) == LookupErrorMarks(podIds, replyTo, n - 1) + [m]
    ensures var errors := FetchAll(podIds, replyTo, n - 1).errors;
            FetchAll(podIds, replyTo, n).errors == if m.Some? then Put(errors, m.value, v) else errors
  {
    var o := GetIdentityOutcome(replyTo(n - 1));
    m := if o.Failure? then Some(podIds[n - 1]) else None;
    v := if o.Failure? then o.error else DecodeError;
  }

  /** For distinct ids, the keys of `found` and of `errors` are in input order. */
  lemma FetchKeysInInputOrder(podIds: seq<string>, replyTo: nat -> Reply, n: nat)
    requires n <= |podIds| && Distinct(podIds)
    ensures FetchAll(podIds, replyTo, n).found.keys == Kept(FoundMarks(podIds, replyTo, n))
    ensures FetchAll(podIds, replyTo, n).errors.keys == Kept(LookupErrorMarks(podIds, replyTo, n))
  {
    FoundKeysInFirstOrder(podIds, replyTo, n);
    LookupErrorKeysInFirstOrder(podIds, replyTo, n);
    KeptIdsDistinct(podIds[..n], FoundMarks(podIds, replyTo, n));
    KeptIdsDistinct(podIds[..n], LookupErrorMarks(podIds, replyTo, n));
    CreatedOfDistinct(Kept(FoundMarks(podIds, replyTo, n)));
    CreatedOfDistinct(Kept(LookupErrorMarks(podIds, replyTo, n)));
  }

  // ------------------------------------------------------- delete_devices_bulk

  /** The dictionary `delete_devices_bulk` returns. */
  datatype DeleteReport = DeleteReport(deleted: seq<string>, notFound: seq<string>, errors: Dict<RemoteError>)

  /**
   * The report after the first `n` deletions. Its `not_found` is always
   * empty: a deletion returns `True` or raises, never `False`.
   */
  function DeleteAll(podIds: seq<string>, replyTo: nat -> Reply, n: nat): (r: DeleteReport)
    requires n <= |podIds|
    ensures r.notFound == []
  {
    if n == 0 then DeleteReport([], [], Dict([], map[]))
    else
      DeleteNeverReturnsFalse(replyTo(n - 1));
      var r := DeleteAll(podIds, replyTo, n - 1);
      var id := podIds[n - 1];
      match DeleteOutcome(replyTo(n - 1))
      case Failure(e) => r.(errors := Put(r.errors, id, e))
      case Success(ok) => if ok then r.(deleted := r.deleted + [id]) else r.(notFound := r.notFound + [id])
  }

  /**
   * `delete_devices_bulk`: deletes every id in turn; a deletion that raises
   * is recorded under `errors` and the loop goes on.
   */
  method DeleteDevicesBulk(podIds: seq<string>, replyTo: nat -> Reply) returns (report: DeleteReport)
    ensures report == DeleteAll(podIds, replyTo, |podIds|)
  {
    var deleted: seq<string> := [];
    var notFound: seq<string> := [];
    var errors: Dict<RemoteError> := Dict([], map[]);
    for i := 0 to |podIds|
      invariant DeleteReport(deleted, notFound, errors) == DeleteAll(podIds, replyTo, i)
    {
      var podId := podIds[i];
      var outcome := DeleteOutcome(replyTo(i));
      if outcome.Failure? {
        errors := Put(errors, podId, outcome.error);
      } else if outcome.value {
        deleted := deleted + [podId];
      } else {
        notFound := notFound + [podId];
      }
    }
    report := DeleteReport(deleted, notFound, errors);
  }

  /** The deletions the registry acknowledged, in input order. */
  function DeletedMarks(podIds: seq<string>, replyTo: nat -> Reply, n: nat): (r: seq<Option<string>>)
    requires n <= |podIds|
    ensures |r| == n
    ensures forall i :: 0 <= i < n ==> r[i] == if DeleteOutcome(replyTo(i)).Success? then Some(podIds[i]) else None
  {
    if n == 0 then []
    else
      var i := n - 1;
      DeletedMarks(podIds, replyTo, i) + [if DeleteOutcome(replyTo(i)).Success? then Some(podIds[i]) else None]
  }

  /** `deleted` lists, in input order, the ids whose deletion got a 2xx reply. */
  lemma {:induction false} DeletedInOrder(podIds: seq<string>, replyTo: nat -> Reply, n: nat)
    requires n <= |podIds|
    ensures DeleteAll(podIds, replyTo, n).deleted == Kept(DeletedMarks(podIds, replyTo, n))
  {
    if n > 0 {
      DeletedInOrder(podIds, replyTo, n - 1);
      var i := n - 1;
      KeptSnoc(DeletedMarks(podIds, replyTo, i), if DeleteOutcome(replyTo(i)).Success? then Some(podIds[i]) else None);
      DeleteNeverReturnsFalse(replyTo(i));
    }
  }

  /** Every error key is one of the ids deleted. */
  lemma {:induction false} DeleteErrorsOnlyInputIds(podIds: seq<string>, replyTo: nat -> Reply, n: nat)
    requires n <= |podIds|
    ensures forall x :: x in DeleteAll(podIds, replyTo, n).errors.entries ==> x in podIds[..n]
  {
    if n > 0 {
      DeleteErrorsOnlyInputIds(podIds, replyTo, n - 1);
      assert podIds[..n] == podIds[..n - 1] + [podIds[n - 1]];
    }
  }

  /** The deletions that raised, in input order. */
  function DeleteErrorMarks(podIds: seq<string>, replyTo: nat -> Reply, n: nat): (r: seq<Option<string>>)
    requires n <= |podIds|
    ensures |r| == n
    ensures forall i :: 0 <= i < n ==> r[i] == if DeleteOutcome(replyTo(i)).Failure? then Some(podIds[i]) else None
  {
    if n == 0 then []
    else
      var i := n - 1;
      DeleteErrorMarks(podIds, replyTo, i) + [if DeleteOutcome(replyTo(i)).Failure? then Some(podIds[i]) else None]
  }

  /**
   * The keys of `errors` are the ids whose deletion raised, in the order of
   * their first failure (plain input order when ids are distinct).
   */
  lemma {:induction false} DeleteErrorKeysInFirstOrder(podIds: seq<string>, replyTo: nat -> Reply, n: nat)
    requires n <= |podIds|
    ensures InsertedInOrder(DeleteAll(podIds, replyTo, n).errors, Kept(DeleteErrorMarks(podIds, replyTo, n)))
  {
    if n > 0 {
      DeleteErrorKeysInFirstOrder(podIds, replyTo, n - 1);
      var m, v := DeleteErrorStep(podIds, replyTo, n);
      PutFollowsFirstInsertion(DeleteAll(podIds, replyTo, n - 1).errors, DeleteErrorMarks(podIds, replyTo, n - 1), m, v);
    }
  }

  /** Deletion `n - 1` marks its id as failed and sets it in `errors`, exactly when it raised `v`. */
  lemma DeleteErrorStep(podIds: seq<string>, replyTo: nat -> Reply, n: nat) returns (m: Option<string>, v: RemoteError)
    requires 0 < n <= |podIds|
    ensures DeleteErrorMarks(podIds, replyTo, n) == DeleteErrorMarks(podIds, replyTo, n - 1) + [m]
    ensures var errors := DeleteAll(podIds, replyTo, n - 1).errors;
            DeleteAll(podIds, replyTo, n).errors == if m.Some? then Put(errors, m.value, v) else errors
  {
    var o := DeleteOutcome(replyTo(n - 1));
    m := if o.Failure? then Some(podIds[n - 1]) else None;
    v := if o.Failure? then o.error else DecodeError;
  }

  /** For distinct ids, the keys of `errors` are in input order. */
  lemma DeleteErrorKeysInInputOrder(podIds: seq<string>, replyTo: nat -> Reply, n: nat)
    requires n <= |podIds| && Distinct(podIds)
    ensures DeleteAll(podIds, replyTo, n).errors.keys == Kept(DeleteErrorMarks(podIds, replyTo, n))
  {
    DeleteErrorKeysInFirstOrder(podIds, replyTo, n);
    KeptIdsDistinct(podIds[..n], DeleteErrorMarks(podIds, replyTo, n));
    CreatedOfDistinct(Kept(DeleteErrorMarks(podIds, replyTo, n)));
  }

  /**
   * For distinct ids, an id whose deletion raised is recorded under
   * `errors` with that exception, whatever happened to the ids before and
   * after it, and no id whose deletion succeeded is. `DeletedInOrder`
   * says where the successful deletions go.
   */
  lemma {:induction false} DeleteErrorsPerId(podIds: seq<string>, replyTo: nat -> Reply, n: nat)
    requires n <= |podIds| && Distinct(podIds)
    ensures forall i :: 0 <= i < n ==>
              var r := DeleteAll(podIds, replyTo, n);
              var o := DeleteOutcome(replyTo(i));
              && (podIds[i] in r.errors.entries <==> o.Failure?)
              && (podIds[i] in r.errors.entries ==> r.errors.entries[podIds[i]] == o.error)
  {
    if n > 0 {
      DeleteErrorsPerId(podIds, replyTo, n - 1);
      DeleteErrorsOnlyInputIds(podIds, replyTo, n - 1);
      var id := podIds[n - 1];
      assert id !in podIds[..n - 1];
      forall i | 0 <= i < n - 1
        ensures podIds[i] != id
      {
      }
    }
  }

  // ------------------------------------------------------------------ example

  /**
   * `[("A", None), ("A", "disabled"), ("B", "bogus")]` creates A and B,
   * reports the second A as duplicated, creates A with no status (the later
   * "disabled" is discarded) and B with a status the registry sees as
   * "enabled".
   */
  lemma EnqueueExample()
    ensures var ds := [CsvParser.DeviceRecord("A", None), CsvParser.DeviceRecord("A", Some("disabled")),
                       CsvParser.DeviceRecord("B", Some("bogus"))];
            && Created(Ids(ds)) == ["A", "B"]
            && Duplicated(Ids(ds)) == ["A"]
            && Queued(ds) == [CreateDevice("A", None), CreateDevice("B", Some("bogus"))]
            && CreatePayload("B", Some("bogus")).status == "enabled"
  {
    var ds := [CsvParser.DeviceRecord("A", None), CsvParser.DeviceRecord("A", Some("disabled")),
               CsvParser.DeviceRecord("B", Some("bogus"))];
    ExampleIds(ds);
    ExampleMarks(ds, Ids(ds));
    KeptFirstAndLast("A", "B");
    KeptMiddle("A");
    KeptFirstAndLast(CreateDevice("A", None), CreateDevice("B", Some("bogus")));
    BogusStatusIsEnabled();
  }

  lemma BogusStatusIsEnabled()
    ensures CreatePayload("B", Some("bogus")).status == "enabled"
  {
    Normalize.CanonicalWord("bogus");
    Normalize.UnrecognisedIsEnabled("bogus");
  }

  lemma ExampleIds(ds: seq<DeviceRecord>)
    requires ds == [CsvParser.DeviceRecord("A", None), CsvParser.DeviceRecord("A", Some("disabled")),
                    CsvParser.DeviceRecord("B", Some("bogus"))]
    ensures Ids(ds) == ["A", "A", "B"]
  {
    TripleDisplay(Ids(ds));
  }

  /** The marks of the example: the first and third records are first occurrences. */
  lemma ExampleMarks(ds: seq<DeviceRecord>, ids: seq<string>)
    requires ds == [CsvParser.DeviceRecord("A", None), CsvParser.DeviceRecord("A", Some("disabled")),
                    CsvParser.DeviceRecord("B", Some("bogus"))]
    requires ids == Ids(ds) == ["A", "A", "B"]
    ensures FirstMarks(ids) == [Some("A"), None, Some("B")]
    ensures RepeatMarks(ids) == [None, Some("A"), None]
    ensures TaskMarks(ds) == [Some(CreateDevice("A", None)), None, Some(CreateDevice("B", Some("bogus")))]
  {
    assert ids[..1] == ["A"] && ids[..2] == ["A", "A"];
    assert IsFirst(ids, 0) && !IsFirst(ids, 1) && IsFirst(ids, 2);
    TripleDisplay(FirstMarks(ids));
    TripleDisplay(RepeatMarks(ids));
    TripleDisplay(TaskMarks(ds));
  }

  lemma KeptFirstAndLast<T>(x: T, y: T)
    ensures Kept([Some(x), None, Some(y)]) == [x, y]
  {
    var s := [Some(x), None, Some(y)];
    assert s[..2] == [Some(x), None] && s[..2][..1] == [Some(x)] && [Some(x)][..0] == [];
    assert Kept([Some(x)]) == [x];
    assert Kept([Some(x), None]) == [x];
  }

  lemma KeptMiddle<T>(x: T)
    ensures Kept([None, Some(x), None]) == [x]
  {
    var none: Option<T> := None;
    KeptSnoc([], none);
    assert [] + [none] == [none];
    KeptSnoc([none], Some(x));
    assert [none] + [Some(x)] == [none, Some(x)];
    KeptSnoc([none, Some(x)], none);
    assert [none, Some(x)] + [none] == [none, Some(x), none];
  }
}
