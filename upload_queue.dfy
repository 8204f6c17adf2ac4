/**
 * The browser-side upload queue: the list of selected files (`state.files`),
 * its admission policy, removal and clearing, and the simulated sequential
 * upload that drives each entry from `ready` through `uploading` to `done`.
 */
module UploadQueue {
  import opened Wrappers

  /** `FILE_SIZE_LIMIT`: 5 MiB. */
  const FileSizeLimit: nat := 5 * 1024 * 1024

  /** `ALLOWED_TYPES`. */
  const AllowedTypes: seq<string> := ["text/plain", "image/jpeg", "image/jpg", "image/png"]

  /** The simulated upload draws its number of ticks as `10 + floor(random * 10)`. */
  const MinTicks: nat := 10
  const MaxTicks: nat := 19

  /** A file picked or dropped by the user, as the browser's `File` reports it. */
  datatype File = File(name: string, size: nat, mimeType: string)

  type Id = string

  /** An object URL from `URL.createObjectURL`; such a URL is never empty,
      so it is truthy wherever the code tests it. */
  type ObjectUrl = s: string | |s| > 0 witness "blob:"

  datatype Status = Ready | Uploading | Done

  /** One element of `state.files`. */
  datatype Entry = Entry(
    id: Id,
    file: File,
    name: string,
    size: nat,
    mimeType: string,
    progress: nat,
    status: Status,
    previewUrl: Option<ObjectUrl>)

  /** Why `addFiles` turned a file away (the text of its `alert`). */
  datatype Rejection = NotAllowed(name: string) | TooLarge(name: string)

  datatype Verdict = Admit | Reject(reason: Rejection)

  predicate StartsWith(s: string, prefix: string)
  {
    |prefix| <= |s| && s[..|prefix|] == prefix
  }

  predicate IsImage(mimeType: string)
  {
    StartsWith(mimeType, "image/")
  }

  /** The two conditions a file must meet to enter the queue. */
  predicate Admissible(f: File)
  {
    f.mimeType in AllowedTypes && f.size <= FileSizeLimit
  }

  /** The test inside `addFiles`: the type first, then the size; a file
      failing both is turned away for its type. */
  function Screen(f: File): (v: Verdict)
    ensures v.Admit? <==> Admissible(f)
    ensures v == Reject(NotAllowed(f.name)) <==> f.mimeType !in AllowedTypes
    ensures v == Reject(TooLarge(f.name)) <==> f.mimeType in AllowedTypes && f.size > FileSizeLimit
  {
    if f.mimeType !in AllowedTypes then Reject(NotAllowed(f.name))
    else if f.size > FileSizeLimit then Reject(TooLarge(f.name))
    else Admit
  }

  /** A file of exactly 5 MiB passes: the size test is a strict `>`. */
  lemma LimitIsInclusive(name: string, mimeType: string)
    requires mimeType in AllowedTypes
    ensures Screen(File(name, FileSizeLimit, mimeType)) == Admit
    ensures Screen(File(name, FileSizeLimit + 1, mimeType)) == Reject(TooLarge(name))
  {
  }

  /** The entry `addFiles` builds for an admitted file; the id drawn with
      `Math.random` and the object URL are given. */
  function NewEntry(f: File, id: Id, url: ObjectUrl): (e: Entry)
    ensures e.file == f && e.status == Ready && e.progress == 0
    ensures e.previewUrl.Some? <==> IsImage(f.mimeType)
    ensures e.previewUrl.Some? ==> e.previewUrl.value == url
  {
    Entry(id, f, f.name, f.size, f.mimeType, 0, Ready,
          if IsImage(f.mimeType) then Some(url) else None)
  }

  /** Entries as `addFiles` creates them: admissible files, `ready` at progress 0. */
  predicate FreshEntries(es: seq<Entry>)
  {
    forall k :: 0 <= k < |es| ==> es[k].status == Ready && es[k].progress == 0 && Admissible(es[k].file)
  }

  predicate AllAdmissible(list: seq<File>)
  {
    forall k :: 0 <= k < |list| ==> Admissible(list[k])
  }

  /** The entries `addFiles` appends for `list`; `ids[k]` and `urls[k]` are
      what would be drawn for `list[k]` if it is admitted. */
  function Admitted(list: seq<File>, ids: seq<Id>, urls: seq<ObjectUrl>): (r: seq<Entry>)
    requires |ids| == |list| && |urls| == |list|
    ensures |r| <= |list|
    ensures FreshEntries(r)
  {
    if list == [] then []
    else
      var n := |list| - 1;
      Admitted(list[..n], ids[..n], urls[..n]) +
      (if Screen(list[n]).Admit? then [NewEntry(list[n], ids[n], urls[n])] else [])
  }

  /** The alerts `addFiles` raises for `list`, in order. */
  function Rejections(list: seq<File>): (r: seq<Rejection>)
    ensures |r| <= |list|
    ensures AllAdmissible(list) ==> r == []
  {
    if list == [] then []
    else
      var n := |list| - 1;
      Rejections(list[..n]) + (match Screen(list[n]) case Reject(r) => [r] case Admit => [])
  }

  /** Reference definition: the files of `list` that pass, in input order. */
  function Kept(list: seq<File>): (r: seq<File>)
  {
    if list == [] then []
    else (if Admissible(list[0]) then [list[0]] else []) + Kept(list[1..])
  }

  lemma {:induction false} KeptMembers(list: seq<File>)
    ensures forall f :: f in Kept(list) <==> f in list && Admissible(f)
  {
    if list != [] {
      KeptMembers(list[1..]);
      assert list == [list[0]] + list[1..];
    }
  }

  /** Filtering keeps order: what passes from `a + b` is what passes from `a`
      followed by what passes from `b`. */
  lemma {:induction false} KeptAppend(a: seq<File>, b: seq<File>)
    ensures Kept(a + b) == Kept(a) + Kept(b)
  {
    if a == [] {
      assert a + b == b;
    } else {
      var ab := a + b;
      assert ab[0] == a[0];
      assert ab[1..] == a[1..] + b;
      KeptAppend(a[1..], b);
      calc {
        Kept(ab);
        (if Admissible(a[0]) then [a[0]] else []) + Kept(a[1..] + b);
        (if Admissible(a[0]) then [a[0]] else []) + (Kept(a[1..]) + Kept(b));
        ((if Admissible(a[0]) then [a[0]] else []) + Kept(a[1..])) + Kept(b);
      }
    }
  }

  /** Every file is either admitted or gets exactly one alert. */
  lemma {:induction false} OneOutcomePerFile(list: seq<File>)
    ensures |Kept(list)| + |Rejections(list)| == |list|
  {
    if list != [] {
      var n := |list| - 1;
      OneOutcomePerFile(list[..n]);
      KeptAppend(list[..n], [list[n]]);
      assert list[..n] + [list[n]] == list;
    }
  }

  /** One more file of `list` adds its entry or its alert. */
  lemma AddFilesStep(list: seq<File>, ids: seq<Id>, urls: seq<ObjectUrl>, i: nat)
    requires |ids| == |list| && |urls| == |list| && i < |list|
    ensures Admitted(list[..i + 1], ids[..i + 1], urls[..i + 1]) ==
            Admitted(list[..i], ids[..i], urls[..i]) +
            (if Screen(list[i]).Admit? then [NewEntry(list[i], ids[i], urls[i])] else [])
    ensures Rejections(list[..i + 1]) ==
            Rejections(list[..i]) + (if Screen(list[i]).Admit? then [] else [Screen(list[i]).reason])
  {
    assert list[..i + 1][..i] == list[..i];
    assert ids[..i + 1][..i] == ids[..i];
    assert urls[..i + 1][..i] == urls[..i];
  }

  /** The entries appended carry exactly the admitted files, in input order,
      each `ready` at progress 0, with a preview exactly for images. */
  lemma {:induction false} AdmittedEntries(list: seq<File>, ids: seq<Id>, urls: seq<ObjectUrl>)
    requires |ids| == |list| && |urls| == |list|
    ensures var es := Admitted(list, ids, urls);
      |es| == |Kept(list)| &&
      forall k :: 0 <= k < |es| ==>
        es[k].file == Kept(list)[k] &&
        es[k].name == es[k].file.name && es[k].size == es[k].file.size &&
        es[k].mimeType == es[k].file.mimeType &&
        es[k].status == Ready && es[k].progress == 0 &&
        es[k].id in ids &&
        (es[k].previewUrl.Some? <==> IsImage(es[k].mimeType))
  {
    if list != [] {
      var n := |list| - 1;
      AdmittedEntries(list[..n], ids[..n], urls[..n]);
      KeptAppend(list[..n], [list[n]]);
      assert list[..n] + [list[n]] == list;
    }
  }

  /** Of the allowed types only `text/plain` gets no preview. */
  lemma PreviewUnlessText(f: File, id: Id, url: ObjectUrl)
    requires Admissible(f)
    ensures NewEntry(f, id, url).previewUrl.None? <==> f.mimeType == "text/plain"
  {
    assert "image/jpeg"[..6] == "image/jpg"[..6] == "image/png"[..6] == "image/";
    assert "text/plain"[..6][0] != "image/"[0];
  }

  /** `state.files.find(f => f.id === id)`: the first entry with that id. */
  function FindById(files: seq<Entry>, id: Id): (r: Option<Entry>)
    ensures r.None? <==> forall k :: 0 <= k < |files| ==> files[k].id != id
    ensures r.Some? ==> exists k :: 0 <= k < |files| && files[k] == r.value && r.value.id == id &&
                          forall j :: 0 <= j < k ==> files[j].id != id
  {
    if files == [] then None
    else if files[0].id == id then Some(files[0])
    else
      var r := FindById(files[1..], id);
      assert r.Some? ==> exists k :: 0 <= k < |files[1..]| && files[1..][k] == r.value &&
                          forall j :: 0 <= j < k ==> files[1..][j].id != id;
      r
  }

  /** `state.files.filter(f => f.id !== id)`. */
  function Without(files: seq<Entry>, id: Id): (r: seq<Entry>)
    ensures |r| <= |files|
    ensures forall e :: e in r ==> e in files && e.id != id
  {
    if files == [] then []
    else (if files[0].id == id then [] else [files[0]]) + Without(files[1..], id)
  }

  /** Removal drops exactly the entries with that id. */
  lemma {:induction false} WithoutMembers(files: seq<Entry>, id: Id)
    ensures forall e :: e in Without(files, id) <==> e in files && e.id != id
  {
    if files != [] {
      WithoutMembers(files[1..], id);
      assert files == [files[0]] + files[1..];
    }
  }

  /** Removal keeps the remaining entries in their original order. */
  lemma {:induction false} WithoutAppend(a: seq<Entry>, b: seq<Entry>, id: Id)
    ensures Without(a + b, id) == Without(a, id) + Without(b, id)
  {
    if a == [] {
      assert a + b == b;
    } else {
      var ab := a + b;
      assert ab[0] == a[0];
      assert ab[1..] == a[1..] + b;
      WithoutAppend(a[1..], b, id);
      calc {
        Without(ab, id);
        (if a[0].id == id then [] else [a[0]]) + Without(a[1..] + b, id);
        (if a[0].id == id then [] else [a[0]]) + (Without(a[1..], id) + Without(b, id));
        ((if a[0].id == id then [] else [a[0]]) + Without(a[1..], id)) + Without(b, id);
      }
    }
  }

  /** An id that no entry carries leaves the list as it is. */
  lemma {:induction false} WithoutUnknown(files: seq<Entry>, id: Id)
    requires FindById(files, id).None?
    ensures Without(files, id) == files
  {
    if files != [] {
      WithoutUnknown(files[1..], id);
    }
  }

  /** The preview `removeFile` releases: that of the first matching entry, if any. */
  function PreviewOf(found: Option<Entry>): (urls: seq<ObjectUrl>)
    ensures |urls| <= 1
    ensures urls != [] <==> found.Some? && found.value.previewUrl.Some?
    ensures found.Some? && found.value.previewUrl.Some? ==> urls == [found.value.previewUrl.value]
  {
    match found
    case Some(Entry(_, _, _, _, _, _, _, Some(u))) => [u]
    case _ => []
  }

  /** A second `removeFile` with the same id changes nothing and releases nothing. */
  lemma RemoveTwice(files: seq<Entry>, id: Id)
    ensures FindById(Without(files, id), id).None?
    ensures Without(Without(files, id), id) == Without(files, id)
    ensures PreviewOf(FindById(Without(files, id), id)) == []
  {
    var rest := Without(files, id);
    WithoutMembers(files, id);
    assert forall k :: 0 <= k < |rest| ==> rest[k] in rest;
    WithoutUnknown(rest, id);
  }

  /** Ids are drawn at random and may repeat. Removing a repeated id drops every
      entry that has it but releases only the first one's preview, so the second
      preview is never released. */
  lemma DuplicateIdLeaksPreview(a: Entry, b: Entry)
    requires a.id == b.id && a.previewUrl.Some? && b.previewUrl.Some?
    requires a.previewUrl != b.previewUrl
    ensures Without([a, b], a.id) == []
    ensures PreviewOf(FindById([a, b], a.id)) == [a.previewUrl.value]
    ensures b.previewUrl.value !in PreviewOf(FindById([a, b], a.id))
  {
    assert [a, b][1..] == [b];
  }

  /** The object URLs of `files`, in order: what `clearAll` releases. */
  function Previews(files: seq<Entry>): (urls: seq<ObjectUrl>)
    ensures |urls| <= |files|
    ensures (forall k :: 0 <= k < |files| ==> files[k].previewUrl.None?) ==> urls == []
  {
    if files == [] then []
    else
      var n := |files| - 1;
      Previews(files[..n]) + (match files[n].previewUrl case Some(u) => [u] case None => [])
  }

  lemma PreviewsExactly(files: seq<Entry>)
    ensures forall u :: u in Previews(files) <==> exists k :: 0 <= k < |files| && files[k].previewUrl == Some(u)
  {
    forall u | u in Previews(files)
      ensures exists k :: 0 <= k < |files| && files[k].previewUrl == Some(u)
    {
      PreviewCameFromEntry(files, u);
    }
    forall u, k | 0 <= k < |files| && files[k].previewUrl == Some(u)
      ensures u in Previews(files)
    {
      EntryPreviewReleased(files, k);
    }
  }

  lemma {:induction false} PreviewCameFromEntry(files: seq<Entry>, u: ObjectUrl)
    requires u in Previews(files)
    ensures exists k :: 0 <= k < |files| && files[k].previewUrl == Some(u)
  {
    var n := |files| - 1;
    var front := files[..n];
    var tail: seq<ObjectUrl> := if files[n].previewUrl.Some? then [files[n].previewUrl.value] else [];
    assert Previews(files) == Previews(front) + tail;
    if u in tail {
      assert files[n].previewUrl == Some(u);
    } else {
      PreviewCameFromEntry(front, u);
      var k :| 0 <= k < n && front[k].previewUrl == Some(u);
      assert files[k] == front[k];
    }
  }

  lemma {:induction false} EntryPreviewReleased(files: seq<Entry>, k: nat)
    requires k < |files| && files[k].previewUrl.Some?
    ensures files[k].previewUrl.value in Previews(files)
  {
    var n := |files| - 1;
    var front := files[..n];
    var tail: seq<ObjectUrl> := if files[n].previewUrl.Some? then [files[n].previewUrl.value] else [];
    assert Previews(files) == Previews(front) + tail;
    if k < n {
      assert front[k] == files[k];
      EntryPreviewReleased(front, k);
    } else {
      assert files[k].previewUrl.value in tail;
    }
  }

  /** `Math.round(x)` for a non-negative rational `n / d`: halves round up. */
  function RoundHalfUp(n: nat, d: nat): (r: nat)
    requires d > 0
    ensures 2 * d * r <= 2 * n + d < 2 * d * (r + 1)
  {
    (2 * n + d) / (2 * d)
  }

  /** `Math.min(100, Math.round(step / total * 100))`. */
  function Progress(step: nat, total: nat): (p: nat)
    requires total > 0
    ensures p <= 100
  {
    var r := RoundHalfUp(100 * step, total);
    if r < 100 then r else 100
  }

  lemma MulMonotone(d: nat, x: nat, y: nat)
    ensures x <= y ==> d * x <= d * y
  {
    if x <= y {
      assert d * y == d * x + d * (y - x);
    }
  }

  /** Progress never goes back as the step counter grows. */
  lemma ProgressMonotone(s1: nat, s2: nat, total: nat)
    requires total > 0 && s1 <= s2
    ensures Progress(s1, total) <= Progress(s2, total)
  {
    var r1, r2 := RoundHalfUp(100 * s1, total), RoundHalfUp(100 * s2, total);
    MulMonotone(2 * total, r2 + 1, r1);
  }

  /** Progress starts at 0 and reaches 100 at the last step. */
  lemma ProgressEnds(total: nat)
    requires total > 0
    ensures Progress(0, total) == 0
    ensures Progress(total, total) == 100
  {
    var r0 := RoundHalfUp(0, total);
    MulMonotone(2 * total, 1, r0);
    var r := RoundHalfUp(100 * total, total);
    MulMonotone(2 * total, r + 1, 100);
    MulMonotone(2 * total, 101, r);
  }

  /** The entry's state at one `renderFiles` call. */
  datatype Snapshot = Snapshot(status: Status, progress: nat)

  /** The snapshots after the first `n` timer ticks, all `uploading`. */
  function Ticks(n: nat, total: nat): (r: seq<Snapshot>)
    requires total > 0
    ensures |r| == n
    ensures forall k :: 0 <= k < n ==> r[k].status == Uploading && r[k].progress <= 100
  {
    if n == 0 then [] else Ticks(n - 1, total) + [Snapshot(Uploading, Progress(n, total))]
  }

  lemma {:induction false} TickAt(n: nat, total: nat, k: nat)
    requires total > 0 && k < n
    ensures Ticks(n, total)[k] == Snapshot(Uploading, Progress(k + 1, total))
  {
    if k < n - 1 {
      TickAt(n - 1, total, k);
    }
  }

  /** What the user sees of one `simulateUploadSingle`: the entry turned
      `uploading` with its previous progress, one snapshot per tick, and
      finally `done` at 100. */
  function UploadTrace(previous: nat, total: nat): (t: seq<Snapshot>)
    requires total > 0
    ensures |t| == total + 2
    ensures forall k :: 0 <= k <= total ==> t[k].status == Uploading
    ensures t[0].progress == previous && t[total + 1] == Snapshot(Done, 100)
  {
    [Snapshot(Uploading, previous)] + Ticks(total, total) + [Snapshot(Done, 100)]
  }

  /** The trace starts `uploading`, stays `uploading` with progress non-decreasing
      and within 0..100 until the last tick, and ends `done` at 100. */
  lemma UploadTraceShape(previous: nat, total: nat)
    requires total > 0
    ensures var t := UploadTrace(previous, total);
      |t| == total + 2 &&
      t[0] == Snapshot(Uploading, previous) &&
      t[total + 1] == Snapshot(Done, 100) &&
      (forall k :: 1 <= k <= total ==> t[k].status == Uploading && t[k].progress <= 100) &&
      (forall j, k :: 1 <= j <= k < |t| ==> t[j].progress <= t[k].progress)
  {
    var t := UploadTrace(previous, total);
    forall k | 1 <= k <= total
      ensures t[k] == Snapshot(Uploading, Progress(k, total))
    {
      TickAt(total, total, k - 1);
    }
    forall j, k | 1 <= j <= k < |t|
      ensures t[j].progress <= t[k].progress
    {
      if k <= total {
        ProgressMonotone(j, k, total);
      }
    }
  }

  /** A fresh `ready` entry sees its progress rise monotonically from 0. */
  lemma FreshUploadMonotone(total: nat)
    requires total > 0
    ensures var t := UploadTrace(0, total);
      forall j, k :: 0 <= j <= k < |t| ==> t[j].progress <= t[k].progress
  {
    UploadTraceShape(0, total);
  }

  /** Uploading an entry that is already `done` starts over: its progress is shown
      at 100 as it turns `uploading`, then drops to the first tick's value. */
  lemma RepeatUploadRestarts(total: nat)
    requires MinTicks <= total <= MaxTicks
    ensures var t := UploadTrace(100, total); t[1].progress < t[0].progress
  {
    var t := UploadTrace(100, total);
    TickAt(total, total, 0);
    assert t[1] == Ticks(total, total)[0];
    var r := RoundHalfUp(100, total);
    MulMonotone(2 * total, 100, r);
    assert r < 100;
  }

  /** A step of `uploadAll`, tagged with the position of the entry it concerns. */
  datatype Event = Event(index: nat, snapshot: Snapshot)

  function Tag(index: nat, trace: seq<Snapshot>): seq<Event>
  {
    seq(|trace|, k requires 0 <= k < |trace| => Event(index, trace[k]))
  }

  predicate ValidTotals(totals: seq<nat>)
  {
    forall k :: 0 <= k < |totals| ==> MinTicks <= totals[k] <= MaxTicks
  }

  /** The events of `uploadAll` over `files`: each entry's trace, one after the other. */
  function UploadLog(files: seq<Entry>, totals: seq<nat>): (log: seq<Event>)
    requires |totals| == |files| && ValidTotals(totals)
    ensures |log| >= (MinTicks + 2) * |files|
  {
    if files == [] then []
    else
      var n := |files| - 1;
      UploadLog(files[..n], totals[..n]) + Tag(n, UploadTrace(files[n].progress, totals[n]))
  }

  /** The uploads run one at a time in list order: events never go back to an
      earlier entry, and every event belongs to an entry of the list. */
  lemma {:induction false} UploadLogSequential(files: seq<Entry>, totals: seq<nat>)
    requires |totals| == |files| && ValidTotals(totals)
    ensures Sequential(UploadLog(files, totals), |files|)
  {
    if files != [] {
      var n := |files| - 1;
      UploadLogSequential(files[..n], totals[..n]);
      var back := Tag(n, UploadTrace(files[n].progress, totals[n]));
      AppendSequential(UploadLog(files[..n], totals[..n]), back, n);
    }
  }

  /** Events refer to entries below `n` and never return to an earlier entry. */
  predicate Sequential(log: seq<Event>, n: nat)
  {
    (forall k :: 0 <= k < |log| ==> log[k].index < n) &&
    (forall j, k :: 0 <= j <= k < |log| ==> log[j].index <= log[k].index)
  }

  lemma AppendSequential(front: seq<Event>, back: seq<Event>, n: nat)
    requires Sequential(front, n)
    requires forall k :: 0 <= k < |back| ==> back[k].index == n
    ensures Sequential(front + back, n + 1)
  {
    var log := front + back;
    forall j, k | 0 <= j <= k < |log|
      ensures log[j].index <= log[k].index
    {
      if k < |front| {
        assert log[j] == front[j] && log[k] == front[k];
      } else if j >= |front| {
        assert log[j] == back[j - |front|] && log[k] == back[k - |front|];
      } else {
        assert log[j] == front[j] && log[k] == back[k - |front|];
      }
    }
  }

  /** Every entry of the list, whatever its status, is uploaded and ends `done`
      at 100 in the log. */
  lemma {:induction false} UploadLogFinishesEach(files: seq<Entry>, totals: seq<nat>, i: nat)
    requires |totals| == |files| && ValidTotals(totals) && i < |files|
    ensures Event(i, Snapshot(Uploading, files[i].progress)) in UploadLog(files, totals)
    ensures Event(i, Snapshot(Done, 100)) in UploadLog(files, totals)
  {
    var n := |files| - 1;
    if i < n {
      UploadLogFinishesEach(files[..n], totals[..n], i);
    } else {
      var t := UploadTrace(files[n].progress, totals[n]);
      UploadTraceShape(files[n].progress, totals[n]);
      var tagged := Tag(n, t);
      assert tagged[0] == Event(n, t[0]);
      assert tagged[|t| - 1] == Event(n, t[|t| - 1]);
    }
  }

  lemma UploadLogStep(files: seq<Entry>, totals: seq<nat>, i: nat)
    requires |totals| == |files| && ValidTotals(totals) && i < |files|
    ensures UploadLog(files[..i + 1], totals[..i + 1]) ==
            UploadLog(files[..i], totals[..i]) + Tag(i, UploadTrace(files[i].progress, totals[i]))
  {
    assert files[..i + 1][..i] == files[..i];
    assert totals[..i + 1][..i] == totals[..i];
  }

  /** The list after `uploadAll`: every entry `done` at 100, nothing else changed. */
  function AllDone(files: seq<Entry>): (r: seq<Entry>)
    ensures |r| == |files|
    ensures forall k :: 0 <= k < |r| ==>
      r[k].status == Done && r[k].progress == 100 &&
      r[k].id == files[k].id && r[k].file == files[k].file && r[k].previewUrl == files[k].previewUrl &&
      r[k].name == files[k].name && r[k].size == files[k].size && r[k].mimeType == files[k].mimeType
  {
    seq(|files|, k requires 0 <= k < |files| => files[k].(status := Done, progress := 100))
  }

  /** What `uploadAll` reports with its `alert`. */
  datatype UploadOutcome = NoFiles | AllSimulated

  /** The module-level `state`. */
  class Queue {
    /** `state.files`. */
    var files: seq<Entry>
    /** The object URLs handed to `URL.revokeObjectURL`, in order. */
    var released: seq<ObjectUrl>

    constructor ()
      ensures files == [] && released == []
    {
      files := [];
      released := [];
    }

    /** `addFiles(list)`. */
    method AddFiles(list: seq<File>, ids: seq<Id>, urls: seq<ObjectUrl>) returns (alerts: seq<Rejection>)
      requires |ids| == |list| && |urls| == |list|
      modifies this
      ensures files == old(files) + Admitted(list, ids, urls)
      ensures alerts == Rejections(list)
      ensures released == old(released)
    {
      var arr: seq<Entry> := [];
      alerts := [];
      var i := 0;
      while i < |list|
        invariant 0 <= i <= |list|
        invariant arr == Admitted(list[..i], ids[..i], urls[..i])
        invariant alerts == Rejections(list[..i])
        invariant files == old(files) && released == old(released)
      {
        AddFilesStep(list, ids, urls, i);
        var verdict := Screen(list[i]);
        if verdict.Admit? {
          arr := arr + [NewEntry(list[i], ids[i], urls[i])];
        } else {
          alerts := alerts + [verdict.reason];
        }
        i := i + 1;
      }
      assert list[..i] == list && ids[..i] == ids && urls[..i] == urls;
      files := files + arr;
    }

    /** `removeFile(id)`. */
    method RemoveFile(id: Id)
      modifies this
      ensures files == Without(old(files), id)
      ensures released == old(released) + PreviewOf(FindById(old(files), id))
    {
      var f := FindById(files, id);
      released := released + PreviewOf(f);
      files := Without(files, id);
    }

    /** `clearAll()`. */
    method ClearAll()
      modifies this
      ensures files == []
      ensures released == old(released) + Previews(old(files))
    {
      var i := 0;
      while i < |files|
        invariant 0 <= i <= |files| && files == old(files)
        invariant released == old(released) + Previews(files[..i])
      {
        assert files[..i + 1][..i] == files[..i];
        if files[i].previewUrl.Some? {
          released := released + [files[i].previewUrl.value];
        }
        i := i + 1;
      }
      assert files[..i] == files;
      files := [];
    }

    /** `simulateUploadSingle(files[i])` with `total` ticks; returns what each
        `renderFiles` call showed of the entry. */
    method SimulateUpload(i: nat, total: nat) returns (trace: seq<Snapshot>)
      requires i < |files| && MinTicks <= total <= MaxTicks
      modifies this
      ensures files == old(files)[i := old(files)[i].(status := Done, progress := 100)]
      ensures trace == UploadTrace(old(files)[i].progress, total)
      ensures released == old(released)
    {
      var previous := files[i].progress;
      files := files[i := files[i].(status := Uploading)];
      trace := [Snapshot(files[i].status, files[i].progress)];
      var step: nat := 0;
      var finished := false;
      while !finished
        invariant step <= total && (finished <==> step == total)
        invariant |files| == |old(files)| && files == old(files)[i := files[i]]
        invariant released == old(released)
        invariant files[i] == old(files)[i].(
          status := if finished then Done else Uploading,
          progress := if finished then 100 else if step == 0 then previous else Progress(step, total))
        invariant trace == [Snapshot(Uploading, previous)] + Ticks(step, total) +
                           (if finished then [Snapshot(Done, 100)] else [])
        decreases total - step, !finished
      {
        step := step + 1;
        files := files[i := files[i].(progress := Progress(step, total))];
        trace := trace + [Snapshot(files[i].status, files[i].progress)];
        if step >= total {
          files := files[i := files[i].(status := Done, progress := 100)];
          trace := trace + [Snapshot(files[i].status, files[i].progress)];
          finished := true;
        }
      }
      assert files[i] == old(files)[i].(status := Done, progress := 100);
    }

    /** `uploadAll()`: with `totals[k]` ticks for the `k`-th entry; returns the
        alert's outcome and every snapshot shown, in order. */
    method UploadAll(totals: seq<nat>) returns (outcome: UploadOutcome, log: seq<Event>)
      requires |totals| == |files| && ValidTotals(totals)
      modifies this
      ensures outcome == if old(files) == [] then NoFiles else AllSimulated
      ensures files == AllDone(old(files))
      ensures log == UploadLog(old(files), totals)
      ensures released == old(released)
    {
      log := [];
      if |files| == 0 {
        outcome := NoFiles;
        return;
      }
      var n := |files|;
      for i := 0 to n
        invariant |files| == n
        invariant forall k :: 0 <= k < i ==> files[k] == old(files)[k].(status := Done, progress := 100)
        invariant forall k :: i <= k < n ==> files[k] == old(files)[k]
        invariant log == UploadLog(old(files)[..i], totals[..i])
        invariant released == old(released)
      {
        var trace := SimulateUpload(i, totals[i]);
        UploadLogStep(old(files), totals, i);
        log := log + Tag(i, trace);
      }
      assert old(files)[..n] == old(files) && totals[..n] == totals;
      outcome := AllSimulated;
    }
  }
}
