/**
 * The image-generation worker: it polls a trigger file holding one
 * `prompt,status` record, and when the status is `True` it sends four
 * text-to-image requests, saves each image it gets back under a
 * prompt-derived name in `Data/`, resets the trigger file to
 * `False,False` and stops.
 *
 * HTTP, the thread pool behind `asyncio`, the random seeds and the
 * outcome of every file write are inputs of the model; the filesystem is
 * the `Disk` object, whose two fields the worker updates in place.
 */
module ImageGeneration {
  import opened Optional
  import opened Text

  newtype Byte = b: int | 0 <= b < 256
  type Bytes = seq<Byte>

  /** Number of requests per job (`range(4)`). */
  const SlotCount: nat := 4
  /** Largest seed `randint(0, 1000000)` can draw (it is inclusive). */
  const MaxSeed: nat := 1000000
  /** Text appended to the prompt in every request, up to the seed value. */
  const QualitySuffix: string := ", quality=4K, sharpness=maximum, Ultra High details, high resolution, seed="
  const ImageFolder: string := "Data"
  const ImageExtension: string := ".jpg"
  /** What the worker writes into the trigger file after a job. */
  const ResetRecord: string := "False,False"
  const TriggerStatus: string := "True"

  // ---------------------------------------------------------------------
  // Request payloads
  // ---------------------------------------------------------------------

  /** The JSON body of one request: `{"inputs": ..., "options": {"wait_for_model": ...}}`. */
  datatype Payload = Payload(inputs: string, waitForModel: bool)

  /** The payload for one slot: the prompt, the fixed quality suffix and
      the seed's numeral, asking the service to wait for the model. */
  function PayloadFor(prompt: string, seed: nat): (p: Payload)
    ensures p.waitForModel
    ensures |p.inputs| > |prompt| + |QualitySuffix|
    ensures p.inputs[..|prompt|] == prompt
    ensures p.inputs[|prompt|..|prompt| + |QualitySuffix|] == QualitySuffix
    ensures IsDecimal(p.inputs[|prompt| + |QualitySuffix|..])
    ensures DecimalValue(p.inputs[|prompt| + |QualitySuffix|..]) == seed
  {
    var inputs := prompt + QualitySuffix + Decimal(seed);
    assert inputs[|prompt| + |QualitySuffix|..] == Decimal(seed);
    DecimalRoundTrip(seed);
    Payload(inputs, true)
  }

  predicate SeedsDrawn(seeds: seq<nat>) {
    |seeds| == SlotCount && forall k :: 0 <= k < |seeds| ==> seeds[k] <= MaxSeed
  }

  /** The `for _ in range(4)` loop of `generate_images`, which builds one
      payload per slot; `seeds[k]` is the value `randint` drew for slot `k`. */
  method BuildPayloads(prompt: string, seeds: seq<nat>) returns (tasks: seq<Payload>)
    requires SeedsDrawn(seeds)
    ensures |tasks| == SlotCount
    ensures forall k :: 0 <= k < SlotCount ==> tasks[k] == PayloadFor(prompt, seeds[k])
    ensures forall k :: 0 <= k < SlotCount ==>
      DecimalValue(PayloadFor(prompt, seeds[k]).inputs[|prompt| + |QualitySuffix|..]) <= MaxSeed
  {
    tasks := [];
    var n := 0;
    while n < SlotCount
      invariant 0 <= n <= SlotCount
      invariant |tasks| == n
      invariant forall k :: 0 <= k < n ==> tasks[k] == PayloadFor(prompt, seeds[k])
    {
      tasks := tasks + [PayloadFor(prompt, seeds[n])];
      n := n + 1;
    }
  }

  // ---------------------------------------------------------------------
  // One request (`query`) and the fan-in (`asyncio.gather`)
  // ---------------------------------------------------------------------

  /** What `requests.post` did: answered with a status and a body, or raised. */
  datatype HttpOutcome = Response(status: int, body: Bytes) | Raised(reason: string)

  /** `query`: the body of a 200 response; `None` for any other status and
      for any exception. */
  function Query(outcome: HttpOutcome): (r: Option<Bytes>)
    ensures r.Some? <==> outcome.Response? && outcome.status == 200
    ensures r.Some? ==> r.value == outcome.body
  {
    match outcome
    case Response(status, body) => if status != 200 then None else Some(body)
    case Raised(_) => None
  }

  /** The order in which the four tasks finish: each slot exactly once. */
  predicate IsCompletionOrder(order: seq<nat>) {
    && |order| == SlotCount
    && (forall j :: 0 <= j < SlotCount ==> order[j] < SlotCount)
    && (forall i, j :: 0 <= i < j < SlotCount ==> order[i] != order[j])
    && (forall k :: 0 <= k < SlotCount ==> k in order)
  }

  /** The results `asyncio.gather` hands back, listed by slot. */
  function Gathered(responses: seq<HttpOutcome>): seq<Option<Bytes>>
    requires |responses| == SlotCount
  {
    seq(SlotCount, k requires 0 <= k < SlotCount => Query(responses[k]))
  }

  /** `asyncio.gather`: tasks finish in `order`, and each result is filed
      under the slot of the task that produced it, so the list comes back in
      slot order whatever the completion order. */
  method Gather(responses: seq<HttpOutcome>, order: seq<nat>) returns (results: seq<Option<Bytes>>)
    requires |responses| == SlotCount && IsCompletionOrder(order)
    ensures |results| == SlotCount
    ensures forall k :: 0 <= k < SlotCount ==> results[k] == Query(responses[k])
  {
    var slots := new Option<Bytes>[SlotCount](_ => None);
    var j := 0;
    while j < SlotCount
      invariant 0 <= j <= SlotCount
      invariant forall i :: 0 <= i < j ==> slots[order[i]] == Query(responses[order[i]])
    {
      var k := order[j];
      slots[k] := Query(responses[k]);
      j := j + 1;
    }
    results := slots[..];
    forall k | 0 <= k < SlotCount
      ensures results[k] == Query(responses[k])
    {
      assert k in order;
      var i :| 0 <= i < SlotCount && order[i] == k;
    }
  }

  // ---------------------------------------------------------------------
  // File names
  // ---------------------------------------------------------------------

  /** `prompt.replace(" ", "_")`: every space becomes an underscore. */
  function Stem(prompt: string): (r: string)
    ensures |r| == |prompt| && ' ' !in r
    ensures forall i :: 0 <= i < |prompt| ==> r[i] == if prompt[i] == ' ' then '_' else prompt[i]
  {
    ReplaceChar(prompt, ' ', '_');
    Replace(prompt, [' '], ['_'])
  }

  /** `os.path.join(folder, name)` with POSIX rules, for a folder that does
      not end in `/`: a name that starts with `/` is absolute and replaces
      the folder; any other name is appended after one `/`. */
  function JoinPath(folder: string, name: string): string {
    if name != [] && name[0] == '/' then name else folder + "/" + name
  }

  /** The file name of slot `k` (0-based), which is image number `k + 1`. */
  function SlotName(prompt: string, k: nat): string {
    Stem(prompt) + Decimal(k + 1) + ImageExtension
  }

  /** The path of slot `k`: `os.path.join("Data", f"{stem}{k + 1}.jpg")`. */
  function SlotPath(prompt: string, k: nat): string {
    JoinPath(ImageFolder, SlotName(prompt, k))
  }

  /** Every slot path ends in `.jpg`. It lies in `Data` unless the prompt
      starts with `/`; then the file name alone is the (absolute) path. */
  lemma SlotPathPlace(prompt: string, k: nat)
    ensures var p := SlotPath(prompt, k);
      && |p| >= |ImageExtension| && p[|p| - |ImageExtension|..] == ImageExtension
      && (prompt != [] && prompt[0] == '/' ==> p == SlotName(prompt, k))
      && (!(prompt != [] && prompt[0] == '/') ==> |p| > |ImageFolder| + 1 && p[..|ImageFolder| + 1] == ImageFolder + "/")
  {
    var name := SlotName(prompt, k);
    NameStartsLikePrompt(prompt, k);
    assert name[|name| - |ImageExtension|..] == ImageExtension;
    if !(prompt != [] && prompt[0] == '/') {
      var head := ImageFolder + "/";
      assert SlotPath(prompt, k) == head + name;
      SuffixOfSuffix(head + name, name, |ImageExtension|);
    }
  }

  /** A slot's file name starts with `/` exactly when the prompt does. */
  lemma NameStartsLikePrompt(prompt: string, k: nat)
    ensures SlotName(prompt, k)[0] == '/' <==> prompt != [] && prompt[0] == '/'
  {
    var stem, number := Stem(prompt), Decimal(k + 1);
    assert SlotName(prompt, k) == stem + (number + ImageExtension);
    if prompt == [] {
      assert SlotName(prompt, k)[0] == number[0];
    } else {
      assert SlotName(prompt, k)[0] == stem[0];
    }
  }

  /** The part of a slot path before the image number: the stem, behind
      `Data/` unless the stem is absolute. */
  function PathHead(prompt: string): string {
    if prompt != [] && prompt[0] == '/' then Stem(prompt) else ImageFolder + "/" + Stem(prompt)
  }

  lemma SlotPathShape(prompt: string, k: nat)
    ensures SlotPath(prompt, k) == PathHead(prompt) + Decimal(k + 1) + ImageExtension
    ensures ' ' !in PathHead(prompt)
  {
    NameStartsLikePrompt(prompt, k);
    var stem, number := Stem(prompt), Decimal(k + 1);
    var name := SlotName(prompt, k);
    assert name == stem + number + ImageExtension;
    if prompt != [] && prompt[0] == '/' {
      assert SlotPath(prompt, k) == name;
    } else {
      var folder := ImageFolder + "/";
      assert ' ' !in folder;
      assert SlotPath(prompt, k) == folder + name;
      assert folder + name == (folder + stem) + number + ImageExtension;
    }
  }

  /** Within one prompt, different slot numbers give different paths
      (and no path contains a space). */
  lemma SlotPathInjective(prompt: string, i: nat, j: nat)
    ensures ' ' !in SlotPath(prompt, i)
    ensures SlotPath(prompt, i) == SlotPath(prompt, j) ==> i == j
  {
    var head := PathHead(prompt);
    var di, dj := Decimal(i + 1), Decimal(j + 1);
    var pi, pj := SlotPath(prompt, i), SlotPath(prompt, j);
    SlotPathShape(prompt, i);
    SlotPathShape(prompt, j);
    assert ' ' !in di;
    if pi == pj {
      assert |di| == |dj|;
      assert di == pi[|head|..|pi| - |ImageExtension|];
      assert dj == pj[|head|..|pj| - |ImageExtension|];
      DecimalInjective(i + 1, j + 1);
    }
  }

  /** The file list of `open_images`: `Data/<stem>1.jpg` .. `Data/<stem>4.jpg`,
      pairwise distinct and free of spaces; they are the paths the save
      loop writes for slots 0..3. */
  function DisplayPaths(prompt: string): (paths: seq<string>)
    ensures |paths| == SlotCount
    ensures forall i :: 0 <= i < SlotCount ==> paths[i] == SlotPath(prompt, i)
    ensures forall i :: 0 <= i < SlotCount ==> ' ' !in paths[i]
    ensures forall i, j :: 0 <= i < j < SlotCount ==> paths[i] != paths[j]
  {
    forall i, j | 0 <= i < SlotCount && 0 <= j < SlotCount
      ensures ' ' !in SlotPath(prompt, i)
      ensures SlotPath(prompt, i) == SlotPath(prompt, j) ==> i == j
    {
      SlotPathInjective(prompt, i, j);
    }
    seq(SlotCount, i requires 0 <= i < SlotCount => SlotPath(prompt, i))
  }

  // ---------------------------------------------------------------------
  // Writing files
  // ---------------------------------------------------------------------

  /** What happened to one `open(path, "w"/"wb")` plus `write`: it
      succeeded; `open` raised, so nothing changed; or `write` raised after
      `open` had truncated the file, leaving its first `kept` units. */
  datatype WriteOutcome = Written | OpenFailed(reason: string) | WriteFailed(reason: string, kept: nat)

  /** The content of a file after an attempted write of `content`. */
  function AfterWrite<T>(before: Option<seq<T>>, content: seq<T>, w: WriteOutcome): (after: Option<seq<T>>)
    ensures w.Written? ==> after == Some(content)
    ensures w.OpenFailed? ==> after == before
    ensures w.WriteFailed? ==> after.Some? && |after.value| <= |content| && after.value == content[..|after.value|]
  {
    match w
    case Written => Some(content)
    case OpenFailed(_) => before
    case WriteFailed(_, kept) => Some(content[..if kept < |content| then kept else |content|])
  }

  function FileAt(files: map<string, Bytes>, path: string): Option<Bytes> {
    if path in files then Some(files[path]) else None
  }

  /** Python truthiness of the gathered result: `None` and `b""` are false. */
  predicate Truthy(result: Option<Bytes>) {
    result.Some? && |result.value| > 0
  }

  /** One pass of the save loop: slot `slot` (0-based) is written to file
      number `slot + 1` only when its result is truthy. */
  function SaveSlot(files: map<string, Bytes>, prompt: string, slot: nat, result: Option<Bytes>,
                    w: WriteOutcome): (r: map<string, Bytes>)
    ensures files.Keys <= r.Keys && r.Keys <= files.Keys + {SlotPath(prompt, slot)}
    ensures forall p :: p != SlotPath(prompt, slot) ==> FileAt(r, p) == FileAt(files, p)
    ensures !Truthy(result) ==> r == files
    ensures Truthy(result) ==> FileAt(r, SlotPath(prompt, slot)) == AfterWrite(FileAt(files, SlotPath(prompt, slot)), result.value, w)
  {
    if Truthy(result) then
      var path := SlotPath(prompt, slot);
      var after := AfterWrite(FileAt(files, path), result.value, w);
      if after.Some? then files[path := after.value] else files
    else files
  }

  /** The whole save loop over the first `|results|` slots, in slot order. */
  function Persisted(files: map<string, Bytes>, prompt: string, results: seq<Option<Bytes>>,
                     writes: seq<WriteOutcome>): (r: map<string, Bytes>)
    requires |results| == |writes|
    ensures files.Keys <= r.Keys
    decreases |results|
  {
    if results == [] then files
    else
      var n := |results| - 1;
      SaveSlot(Persisted(files, prompt, results[..n], writes[..n]), prompt, n, results[n], writes[n])
  }

  /** What the save loop leaves at the path of slot `k`: the attempted
      write of a truthy result, whatever happened to the other slots, and
      the old content for a falsy one. */
  lemma {:induction false} PersistedSlot(files: map<string, Bytes>, prompt: string,
                                         results: seq<Option<Bytes>>, writes: seq<WriteOutcome>, k: nat)
    requires |results| == |writes| && k < |results|
    ensures var path := SlotPath(prompt, k);
      FileAt(Persisted(files, prompt, results, writes), path)
      == if Truthy(results[k]) then AfterWrite(FileAt(files, path), results[k].value, writes[k])
         else FileAt(files, path)
    decreases |results|
  {
    var n := |results| - 1;
    var path := SlotPath(prompt, k);
    var before := Persisted(files, prompt, results[..n], writes[..n]);
    if k < n {
      PersistedSlot(files, prompt, results[..n], writes[..n], k);
      SlotPathInjective(prompt, k, n);
      assert FileAt(SaveSlot(before, prompt, n, results[n], writes[n]), path) == FileAt(before, path);
    } else {
      forall i | 0 <= i < n ensures path != SlotPath(prompt, i) {
        SlotPathInjective(prompt, k, i);
      }
      PersistedElsewhere(files, prompt, results[..n], writes[..n], path);
    }
  }

  /** The save loop changes no path other than the slots' own. */
  lemma {:induction false} PersistedElsewhere(files: map<string, Bytes>, prompt: string,
                                              results: seq<Option<Bytes>>, writes: seq<WriteOutcome>,
                                              path: string)
    requires |results| == |writes|
    requires forall i :: 0 <= i < |results| ==> path != SlotPath(prompt, i)
    ensures FileAt(Persisted(files, prompt, results, writes), path) == FileAt(files, path)
    decreases |results|
  {
    if results != [] {
      var n := |results| - 1;
      PersistedElsewhere(files, prompt, results[..n], writes[..n], path);
    }
  }

  /** Saving the same results again, when every write succeeds, overwrites
      each file with what it already holds: the files, and so their number,
      stay the same. */
  lemma PersistTwice(files: map<string, Bytes>, prompt: string, results: seq<Option<Bytes>>,
                     writes: seq<WriteOutcome>)
    requires |results| == |writes| && forall k :: 0 <= k < |writes| ==> writes[k].Written?
    ensures Persisted(Persisted(files, prompt, results, writes), prompt, results, writes)
            == Persisted(files, prompt, results, writes)
  {
    var once := Persisted(files, prompt, results, writes);
    var twice := Persisted(once, prompt, results, writes);
    forall p
      ensures FileAt(twice, p) == FileAt(once, p)
    {
      if k :| 0 <= k < |results| && p == SlotPath(prompt, k) {
        PersistedSlot(once, prompt, results, writes, k);
        PersistedSlot(files, prompt, results, writes, k);
      } else {
        PersistedElsewhere(once, prompt, results, writes, p);
      }
    }
    assert forall p :: p in twice <==> FileAt(twice, p).Some?;
    assert forall p :: p in once <==> FileAt(once, p).Some?;
  }

  /** Slots whose result is truthy. */
  function NonEmptySlots(results: seq<Option<Bytes>>): set<nat> {
    set k: nat | k < |results| && Truthy(results[k])
  }

  /** Truthy slots whose write raised. */
  function FailedSlots(results: seq<Option<Bytes>>, writes: seq<WriteOutcome>): set<nat>
    requires |results| == |writes|
  {
    set k: nat | k < |results| && Truthy(results[k]) && !writes[k].Written?
  }

  /** Files the save loop writes completely. */
  function SavedPaths(prompt: string, results: seq<Option<Bytes>>, writes: seq<WriteOutcome>): set<string>
    requires |results| == |writes|
  {
    set k: nat | k < |results| && Truthy(results[k]) && writes[k].Written? :: SlotPath(prompt, k)
  }

  /** One path per slot: a set of slots and its set of paths have the same size. */
  lemma {:induction false} PathsOfSlotsCount(prompt: string, slots: set<nat>)
    ensures |set k | k in slots :: SlotPath(prompt, k)| == |slots|
    decreases |slots|
  {
    if slots != {} {
      var x :| x in slots;
      var rest := slots - {x};
      PathsOfSlotsCount(prompt, rest);
      var all := set k | k in slots :: SlotPath(prompt, k);
      var others := set k | k in rest :: SlotPath(prompt, k);
      assert all == others + {SlotPath(prompt, x)};
      if SlotPath(prompt, x) in others {
        var y :| y in rest && SlotPath(prompt, y) == SlotPath(prompt, x);
        SlotPathInjective(prompt, x, y);
      }
    }
  }

  /** The number of files written completely is the number of truthy slots
      less the number of writes that raised. */
  lemma SavedFileCount(prompt: string, results: seq<Option<Bytes>>, writes: seq<WriteOutcome>)
    requires |results| == |writes|
    ensures |SavedPaths(prompt, results, writes)| == |NonEmptySlots(results)| - |FailedSlots(results, writes)|
  {
    var ok := NonEmptySlots(results) - FailedSlots(results, writes);
    assert SavedPaths(prompt, results, writes) == set k | k in ok :: SlotPath(prompt, k);
    PathsOfSlotsCount(prompt, ok);
    assert FailedSlots(results, writes) <= NonEmptySlots(results);
  }

  /** The filesystem the worker sees: the trigger file (`None` when it
      cannot be opened) and the image files the worker writes (under
      `Data/`, or at an absolute path when the prompt starts with `/`). */
  class Disk {
    var trigger: Option<string>
    var images: map<string, Bytes>

    constructor (trigger: Option<string>, images: map<string, Bytes>)
      ensures this.trigger == trigger && this.images == images
    {
      this.trigger := trigger;
      this.images := images;
    }

    function Snap(): Snapshot
      reads this
    {
      Snapshot(trigger, images)
    }
  }

  datatype Snapshot = Snapshot(trigger: Option<string>, images: map<string, Bytes>)

  /** The save loop over one more slot is one more pass. */
  lemma PersistedStep(files: map<string, Bytes>, prompt: string, results: seq<Option<Bytes>>,
                      writes: seq<WriteOutcome>, i: nat)
    requires |results| == |writes| && i < |results|
    ensures Persisted(files, prompt, results[..i + 1], writes[..i + 1])
            == SaveSlot(Persisted(files, prompt, results[..i], writes[..i]), prompt, i, results[i], writes[i])
  {
    assert results[..i + 1][..i] == results[..i] && writes[..i + 1][..i] == writes[..i];
  }

  /** The save loop of `generate_images`; `writes[k]` is what happened to
      the write of slot `k`. An exception in one slot is caught there. */
  method SaveImages(disk: Disk, prompt: string, results: seq<Option<Bytes>>, writes: seq<WriteOutcome>)
    requires |results| == |writes|
    modifies disk`images
    ensures disk.images == Persisted(old(disk.images), prompt, results, writes)
  {
    var i := 0;
    while i < |results|
      invariant 0 <= i <= |results|
      invariant disk.images == Persisted(old(disk.images), prompt, results[..i], writes[..i])
    {
      ghost var before := disk.images;
      if Truthy(results[i]) {
        var path := SlotPath(prompt, i);
        var after := AfterWrite(FileAt(disk.images, path), results[i].value, writes[i]);
        if after.Some? {
          disk.images := disk.images[path := after.value];
        }
      }
      assert disk.images == SaveSlot(before, prompt, i, results[i], writes[i]);
      PersistedStep(old(disk.images), prompt, results, writes, i);
      i := i + 1;
    }
    assert results[..i] == results && writes[..i] == writes;
  }

  // ---------------------------------------------------------------------
  // One job
  // ---------------------------------------------------------------------

  /** Everything a job's outcome depends on besides the prompt: the drawn
      seeds, the service's answer per slot, the order the requests finish
      in, and what happened to each image write. */
  datatype Job = Job(seeds: seq<nat>, responses: seq<HttpOutcome>, completionOrder: seq<nat>,
                     writes: seq<WriteOutcome>)

  predicate ValidJob(job: Job) {
    && SeedsDrawn(job.seeds)
    && |job.responses| == SlotCount
    && IsCompletionOrder(job.completionOrder)
    && |job.writes| == SlotCount
  }

  /** The `Data/` directory after a job for `prompt`. */
  function Generated(images: map<string, Bytes>, prompt: string, job: Job): map<string, Bytes>
    requires ValidJob(job)
  {
    Persisted(images, prompt, Gathered(job.responses), job.writes)
  }

  /** A job touches at most the four paths of its prompt: each holds the
      attempted write of its slot's response body when that is a non-empty
      200 answer, and keeps its old content otherwise. */
  lemma GeneratedFiles(images: map<string, Bytes>, prompt: string, job: Job, path: string)
    requires ValidJob(job)
    ensures path !in DisplayPaths(prompt) ==> FileAt(Generated(images, prompt, job), path) == FileAt(images, path)
    ensures forall k :: 0 <= k < SlotCount && path == SlotPath(prompt, k) ==>
      FileAt(Generated(images, prompt, job), path)
      == if Truthy(Query(job.responses[k])) then AfterWrite(FileAt(images, path), Query(job.responses[k]).value, job.writes[k])
         else FileAt(images, path)
  {
    var results := Gathered(job.responses);
    if path !in DisplayPaths(prompt) {
      PersistedElsewhere(images, prompt, results, job.writes, path);
    }
    forall k | 0 <= k < SlotCount && path == SlotPath(prompt, k)
      ensures FileAt(Generated(images, prompt, job), path)
        == if Truthy(Query(job.responses[k])) then AfterWrite(FileAt(images, path), Query(job.responses[k]).value, job.writes[k])
           else FileAt(images, path)
    {
      PersistedSlot(images, prompt, results, job.writes, k);
    }
  }

  /** `generate_images`: build the four payloads, send them, gather the
      answers in slot order and save the truthy ones. Returns the payloads
      sent, slot by slot. */
  method GenerateAndSave(disk: Disk, prompt: string, job: Job) returns (sent: seq<Payload>)
    requires ValidJob(job)
    modifies disk`images
    ensures disk.images == Generated(old(disk.images), prompt, job)
    ensures |sent| == SlotCount && forall k :: 0 <= k < SlotCount ==> sent[k] == PayloadFor(prompt, job.seeds[k])
  {
    sent := BuildPayloads(prompt, job.seeds);
    var results := Gather(job.responses, job.completionOrder);
    assert results == Gathered(job.responses);
    SaveImages(disk, prompt, results, job.writes);
  }

  /** The wrapper `GenerateImages`: run `generate_images`, then hand the
      four slot paths to `open_images`, which shows the ones that exist.
      Returns the payloads sent and the paths offered for display. */
  method GenerateImages(disk: Disk, prompt: string, job: Job) returns (sent: seq<Payload>, shown: seq<string>)
    requires ValidJob(job)
    modifies disk`images
    ensures disk.images == Generated(old(disk.images), prompt, job)
    ensures |sent| == SlotCount && forall k :: 0 <= k < SlotCount ==> sent[k] == PayloadFor(prompt, job.seeds[k])
    ensures |shown| == SlotCount && forall k :: 0 <= k < SlotCount ==> shown[k] == SlotPath(prompt, k)
  {
    sent := GenerateAndSave(disk, prompt, job);
    shown := DisplayPaths(prompt);
  }

  // ---------------------------------------------------------------------
  // The trigger file and the main loop
  // ---------------------------------------------------------------------

  /** What one poll makes of the trigger file's text. */
  datatype Decision =
    | Empty                      // nothing but whitespace: idle
    | Malformed(fields: nat)     // not two comma-separated fields: the unpacking raises, caught
    | NotTriggered(status: string)
    | Trigger(prompt: string)

  /** Lines 96-106 of the main loop: strip, split on commas, unpack two
      fields, compare the stripped status with `True`. */
  function Interpret(text: string): Decision {
    var data := Strip(text);
    if data == [] then Empty
    else
      var fields := Split(data, ',');
      if |fields| != 2 then Malformed(|fields|)
      else if Strip(fields[1]) == TriggerStatus then Trigger(Strip(fields[0]))
      else NotTriggered(fields[1])
  }

  /** The four outcomes of a poll: idle exactly on blank text; a failed
      unpacking reports one more field than the stripped text has commas,
      and never two; the other two outcomes need exactly one comma; a
      prompt is comma-free and already stripped; a status that does not
      trigger is comma-free and does not strip to `True`. */
  lemma InterpretCases(text: string)
    ensures var r := Interpret(text);
      && (r.Empty? <==> IsBlank(text))
      && (r.Malformed? ==> r.fields != 2 && r.fields == Occurrences(Strip(text), ',') + 1)
      && (r.Trigger? || r.NotTriggered? ==> Occurrences(Strip(text), ',') == 1)
      && (r.Trigger? ==> ',' !in r.prompt && Strip(r.prompt) == r.prompt)
      && (r.NotTriggered? ==> ',' !in r.status && Strip(r.status) != TriggerStatus)
  {
    StripEmptyIffBlank(text);
    var data := Strip(text);
    if data != [] {
      var fields := Split(data, ',');
      SplitCount(data, ',');
      if |fields| == 2 {
        StripIdempotent(fields[0]);
        StripKeepsOut(fields[0], ',');
      }
    }
  }

  /** Stripping a record strips the outer ends of its two fields. */
  lemma StripRecord(a: string, b: string)
    ensures Strip(a + "," + b) == StripLeft(a) + [','] + StripRight(b)
  {
    var text := a + "," + b;
    assert text == a + ("," + b);
    StripLeftAppend(a, "," + b);
    var left := StripLeft(a) + ",";
    assert StripLeft(text) == left + b;
    assert left[|left| - 1] == ',';
    StripRightPrepend(left, b);
  }

  /** The stripped record splits into its two partly stripped fields. */
  lemma SplitRecord(a: string, b: string)
    requires ',' !in a && ',' !in b
    ensures Split(Strip(a + "," + b), ',') == [StripLeft(a), StripRight(b)]
  {
    StripRecord(a, b);
    assert ',' !in StripLeft(a) && ',' !in StripRight(b);
    SplitAtSeparator(StripLeft(a), ',', StripRight(b));
    SplitWithoutSeparator(StripRight(b), ',');
  }

  /** A record `a,b` with no other comma triggers exactly when `b` strips to
      `True`, and then with the stripped `a` as the prompt. */
  lemma InterpretRecord(a: string, b: string)
    requires ',' !in a && ',' !in b
    ensures Interpret(a + "," + b).Trigger? <==> Strip(b) == TriggerStatus
    ensures Interpret(a + "," + b).Trigger? ==> Interpret(a + "," + b).prompt == Strip(a)
    ensures !Interpret(a + "," + b).Trigger? ==> Interpret(a + "," + b).NotTriggered?
  {
    StripRecord(a, b);
    SplitRecord(a, b);
    StripAfterStripLeft(a);
    StripAfterStripRight(b);
  }

  /** Text with other than exactly one comma never triggers: it is empty or
      the unpacking fails. */
  lemma InterpretNeedsOneComma(text: string)
    requires Occurrences(text, ',') != 1
    ensures Interpret(text).Empty? || Interpret(text).Malformed?
  {
    var data := Strip(text);
    if data != [] {
      var lo := LeadingSpaces(text);
      assert text == text[..lo] + data + text[lo + |data|..];
      assert ',' !in text[..lo] && ',' !in text[lo + |data|..];
      assert Occurrences(data, ',') == Occurrences(text, ',');
      SplitCount(data, ',');
    }
  }

  /** The reset value is a well-formed, non-triggering record. */
  lemma ResetDoesNotTrigger()
    ensures Interpret(ResetRecord).NotTriggered?
  {
    var f := "False";
    StripKeepsTrimmed(f);
    assert Strip(f) != TriggerStatus;
    InterpretRecord(f, f);
    assert f + "," + f == ResetRecord;
  }

  /** What the environment does during one pass of the main loop: the
      external writer may overwrite the trigger file before it is read; the
      job that runs if the pass triggers; what happens to the reset write. */
  datatype Tick = Tick(external: Option<string>, job: Job, reset: WriteOutcome)

  /** One pass of `while True`: the new filesystem, and whether the loop
      breaks. A pass that cannot open the file, finds it empty, fails to
      unpack it or finds a status other than `True` changes nothing. */
  function TickEffect(s: Snapshot, t: Tick): (r: (Snapshot, bool))
    requires ValidJob(t.job)
    ensures var read := if t.external.Some? then t.external else s.trigger;
      if read.Some? && Interpret(read.value).Trigger? then
        && r.0.images == Generated(s.images, Interpret(read.value).prompt, t.job)
        && r.0.trigger == AfterWrite(read, ResetRecord, t.reset)
        && (r.1 <==> t.reset.Written?)
      else r == (Snapshot(read, s.images), false)
    ensures r.1 ==> r.0.trigger == Some(ResetRecord)
  {
    var read := if t.external.Some? then t.external else s.trigger;
    if read.None? then (Snapshot(read, s.images), false)
    else
      match Interpret(read.value)
      case Trigger(prompt) =>
        (Snapshot(AfterWrite(read, ResetRecord, t.reset), Generated(s.images, prompt, t.job)), t.reset.Written?)
      case _ => (Snapshot(read, s.images), false)
  }

  predicate ValidTicks(ticks: seq<Tick>) {
    forall k :: 0 <= k < |ticks| ==> ValidJob(ticks[k].job)
  }

  /** The main loop over the passes `ticks[from..]`: the final filesystem,
      whether it broke out, and the number of passes made from the start
      of `ticks`. */
  function WatchEffect(s: Snapshot, ticks: seq<Tick>, from: nat): (r: (Snapshot, bool, nat))
    requires ValidTicks(ticks) && from <= |ticks|
    ensures from <= r.2 <= |ticks|
    ensures !r.1 ==> r.2 == |ticks|
    ensures r.1 ==> r.2 > from && r.0.trigger == Some(ResetRecord)
    decreases |ticks| - from
  {
    if from == |ticks| then (s, false, from)
    else
      var pass := TickEffect(s, ticks[from]);
      if pass.1 then (pass.0, true, from + 1)
      else WatchEffect(pass.0, ticks, from + 1)
  }

  /** Once the loop has stopped, a later pass over the untouched reset file
      would change nothing and would not stop again. */
  lemma ResetIsIdle(images: map<string, Bytes>, t: Tick)
    requires ValidJob(t.job) && t.external.None?
    ensures TickEffect(Snapshot(Some(ResetRecord), images), t) == (Snapshot(Some(ResetRecord), images), false)
  {
    ResetDoesNotTrigger();
  }

  /** A run in which no pass reads a triggering record leaves every image
      in place and never stops: the record on disk does not trigger, and
      neither does any record written from outside during the run (passes
      in which nobody rewrites the file read the record already there). */
  lemma {:induction false} IdleRunKeepsImages(s: Snapshot, ticks: seq<Tick>, from: nat)
    requires ValidTicks(ticks) && from <= |ticks|
    requires s.trigger.Some? ==> !Interpret(s.trigger.value).Trigger?
    requires forall k :: from <= k < |ticks| && ticks[k].external.Some? ==> !Interpret(ticks[k].external.value).Trigger?
    ensures WatchEffect(s, ticks, from).0.images == s.images && !WatchEffect(s, ticks, from).1
    decreases |ticks| - from
  {
    if from < |ticks| {
      var s1 := TickEffect(s, ticks[from]).0;
      IdleRunKeepsImages(s1, ticks, from + 1);
    }
  }

  /** One pass of the main loop, done on the disk. */
  method Poll(disk: Disk, t: Tick) returns (stop: bool)
    requires ValidJob(t.job)
    modifies disk
    ensures (disk.Snap(), stop) == TickEffect(old(disk.Snap()), t)
  {
    if t.external.Some? {
      disk.trigger := t.external;
    }
    stop := false;
    if disk.trigger.Some? {
      var decision := Interpret(disk.trigger.value);
      if decision.Trigger? {
        var _, _ := GenerateImages(disk, decision.prompt, t.job);
        disk.trigger := AfterWrite(disk.trigger, ResetRecord, t.reset);
        stop := t.reset.Written?;
      }
    }
  }

  /** The `while True` loop, over the passes in `ticks`; it breaks after the
      first pass that triggers and resets the file. */
  method MainLoop(disk: Disk, ticks: seq<Tick>) returns (stopped: bool, used: nat)
    requires ValidTicks(ticks)
    modifies disk
    ensures (disk.Snap(), stopped, used) == WatchEffect(old(disk.Snap()), ticks, 0)
  {
    stopped, used := false, 0;
    ghost var start := disk.Snap();
    while used < |ticks| && !stopped
      invariant 0 <= used <= |ticks|
      invariant stopped ==> WatchEffect(start, ticks, 0) == (disk.Snap(), true, used)
      invariant !stopped ==> WatchEffect(start, ticks, 0) == WatchEffect(disk.Snap(), ticks, used)
      decreases |ticks| - used, !stopped
    {
      stopped := Poll(disk, ticks[used]);
      used := used + 1;
    }
  }
}
