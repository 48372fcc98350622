/**
 * The older device service (app/services/devices.py), which carries its own
 * copies of the header normaliser, the CSV row loop and the enqueue loop.
 * Each copy is written out again here and proved against the same
 * specification as the app/utils version; the two header normalisers are
 * proved to agree on every input.
 */
module Devices {
  import opened Wrappers
  import opened Text
  import Normalize
  import CsvParser
  import DeviceQueue
  import opened Filtering

  /** `normalize_headers` of this module: `[]` when falsy, else strip then delete U+FEFF. */
  function NormalizeHeaders(fieldnames: Option<seq<string>>): (r: seq<string>)
    ensures fieldnames.None? || fieldnames.value == [] ==> r == []
    ensures fieldnames.Some? ==> |r| == |fieldnames.value|
    ensures forall k :: 0 <= k < |r| ==> Bom !in r[k]
  {
    if fieldnames.None? || fieldnames.value == [] then []
    else
      var hs := fieldnames.value;
      seq(|hs|, k requires 0 <= k < |hs| => RemoveAll(Strip(hs[k]), Bom))
  }

  /** The two copies of `normalize_headers` agree on every input. */
  lemma NormalizeHeadersCopiesAgree(fieldnames: Option<seq<string>>)
    ensures NormalizeHeaders(fieldnames) == Normalize.NormalizeHeaders(fieldnames)
  {
  }

  /**
   * `parse_csv_devices` of this module: the same loop as the app/utils
   * parser, written out again over the headers this module's normaliser
   * produces, so it yields what the app/utils parser yields.
   */
  method ParseCsvDevices(header: Option<seq<string>>, rows: seq<seq<string>>) returns (devices: seq<CsvParser.DeviceRecord>)
    ensures devices == CsvParser.Parsed(NormalizeHeaders(header), rows)
    ensures devices == CsvParser.Parsed(Normalize.NormalizeHeaders(header), rows)
    ensures |devices| <= |rows|
    ensures forall k :: 0 <= k < |devices| ==> devices[k].id != "" && Strip(devices[k].id) == devices[k].id
  {
    var fieldnames := NormalizeHeaders(header);
    devices := [];
    for i := 0 to |rows|
      invariant devices == CsvParser.Parsed(fieldnames, rows[..i])
    {
      CsvParser.ParsedOneMore(fieldnames, rows, i);
      var row := CsvParser.RowDict(fieldnames, rows[i]);
      var podId := Strip(CsvParser.Cell(row, "DeviceId"));
      var status := Strip(CsvParser.Cell(row, "Status"));
      if podId == "" {
        continue;
      }
      devices := devices + [CsvParser.DeviceRecord(podId, if status == "" then None else Some(status))];
    }
    WholePrefix(rows);
    NormalizeHeadersCopiesAgree(header);
    CsvParser.ParsedIdsAreClean(fieldnames, rows);
  }

  /**
   * `enqueue_devices` of this module: the same loop as the app/utils
   * engine, written out again, with the same `created`, `duplicated` and
   * queued tasks.
   */
  method EnqueueDevices(devices: seq<CsvParser.DeviceRecord>, bg: DeviceQueue.BackgroundTasks)
    returns (created: seq<string>, duplicated: seq<string>)
    modifies bg
    ensures created == DeviceQueue.Created(DeviceQueue.Ids(devices))
    ensures duplicated == DeviceQueue.Duplicated(DeviceQueue.Ids(devices))
    ensures bg.tasks == old(bg.tasks) + DeviceQueue.Queued(devices)
  {
    ghost var ids, fm, rm, tm := DeviceQueue.Ids(devices), DeviceQueue.FirstMarks(DeviceQueue.Ids(devices)),
                                 DeviceQueue.RepeatMarks(DeviceQueue.Ids(devices)), DeviceQueue.TaskMarks(devices);
    ghost var before := bg.tasks;
    var seen: set<string> := {};
    created := [];
    duplicated := [];
    for i := 0 to |devices|
      invariant seen == DeviceQueue.SeenSet(ids, i)
      invariant created == Kept(fm[..i])
      invariant duplicated == Kept(rm[..i])
      invariant bg.tasks == before + Kept(tm[..i])
    {
      DeviceQueue.EnqueueKeepsInvariant(devices, ids, fm, rm, tm, i, created, duplicated, before, bg.tasks);
      var podId := devices[i].id;
      var status := devices[i].status;
      if podId in seen {
        duplicated := duplicated + [podId];
        continue;
      }
      seen := seen + {podId};
      bg.AddTask(DeviceQueue.CreateDevice(podId, status));
      created := created + [podId];
    }
    WholePrefix(fm);
    WholePrefix(rm);
    WholePrefix(tm);
  }
}
