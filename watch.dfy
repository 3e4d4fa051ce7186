/**
 * Directory-watch events and the per-tick decision whether they ask for a
 * reload of the loaded avatar.
 */
module Watch {
  import opened Options
  import opened Paths

  /** The handle returned by registering a directory with the watch service. */
  datatype WatchKey = WatchKey(handle: nat)

  /** An event drained from a watch key: lost events are reported as one
      OVERFLOW; every other event names the changed file (a bare file name). */
  datatype WatchEvent = Overflow | EntryModify(fileName: string)

  /** The events drained this tick from the key of directory `dir`. */
  function Polled(events: map<string, seq<WatchEvent>>, dir: string): seq<WatchEvent>
  {
    if dir in events then events[dir] else []
  }

  /** An event asks for a reload when it is not an OVERFLOW and the changed
      file, without its last extension, is the loaded avatar's name. */
  predicate Triggers(e: WatchEvent, loadedName: Option<string>)
    ensures Triggers(e, loadedName) ==> loadedName.Some? && e.EntryModify?
  {
    match e
    case Overflow => false
    case EntryModify(fileName) => Some(RemoveExtension(fileName)) == loadedName
  }

  predicate BatchTriggers(batch: seq<WatchEvent>, loadedName: Option<string>)
  {
    exists i :: 0 <= i < |batch| && Triggers(batch[i], loadedName)
  }

  /** Some directory of the watch table drained an event that asks for a reload. */
  predicate ShouldReload(table: map<string, WatchKey>, events: map<string, seq<WatchEvent>>, loadedName: Option<string>)
    ensures ShouldReload(table, events, loadedName) ==> loadedName.Some?
  {
    exists dir :: dir in table && BatchTriggers(Polled(events, dir), loadedName)
  }

  /** The scan of the watch table: every key's events are drained in turn,
      OVERFLOW events are skipped, and the reload flag is raised by the first
      event whose stem equals the loaded name and left raised. */
  method ScanForReload(table: map<string, WatchKey>, events: map<string, seq<WatchEvent>>, loadedName: Option<string>)
    returns (doReload: bool)
    ensures doReload <==> exists dir, i :: dir in table && 0 <= i < |Polled(events, dir)| && Triggers(Polled(events, dir)[i], loadedName)
    ensures doReload == ShouldReload(table, events, loadedName)
  {
    doReload := false;
    var pending := table.Keys;
    while pending != {}
      invariant pending <= table.Keys
      invariant doReload <==> exists dir, i :: dir in table && dir !in pending && 0 <= i < |Polled(events, dir)| && Triggers(Polled(events, dir)[i], loadedName)
      decreases pending
    {
      var dir :| dir in pending;
      var batch := Polled(events, dir);
      for j := 0 to |batch|
        invariant doReload <==>
          (exists d, i :: d in table && d !in pending && 0 <= i < |Polled(events, d)| && Triggers(Polled(events, d)[i], loadedName)) ||
          (exists i :: 0 <= i < j && Triggers(batch[i], loadedName))
      {
        var event := batch[j];
        if event.Overflow? {
          continue;
        }
        var realName := RemoveExtension(event.fileName);
        if Some(realName) == loadedName && !doReload {
          doReload := true;
        }
      }
      pending := pending - {dir};
    }
  }

  /** Where each element of a batch lands once an event is inserted at `k`. */
  lemma InsertedAt(batch: seq<WatchEvent>, k: nat, e: WatchEvent, j: nat)
    requires k <= |batch| && j <= |batch|
    ensures |batch[..k] + [e] + batch[k..]| == |batch| + 1
    ensures (batch[..k] + [e] + batch[k..])[j] == if j < k then batch[j] else if j == k then e else batch[j - 1]
  {
  }

  /** OVERFLOW events are ignored: inserting one anywhere in a batch does not
      change whether the batch asks for a reload. */
  lemma {:induction false} OverflowIgnored(batch: seq<WatchEvent>, k: nat, loadedName: Option<string>)
    requires k <= |batch|
    ensures BatchTriggers(batch[..k] + [Overflow] + batch[k..], loadedName) == BatchTriggers(batch, loadedName)
  {
    var longer := batch[..k] + [Overflow] + batch[k..];
    InsertedAt(batch, k, Overflow, k);
    if BatchTriggers(batch, loadedName) {
      var i :| 0 <= i < |batch| && Triggers(batch[i], loadedName);
      var i' := if i < k then i else i + 1;
      InsertedAt(batch, k, Overflow, i');
      assert Triggers(longer[i'], loadedName);
    }
    if BatchTriggers(longer, loadedName) {
      var i' :| 0 <= i' < |longer| && Triggers(longer[i'], loadedName);
      InsertedAt(batch, k, Overflow, i');
      var i := if i' < k then i' else i' - 1;
      assert Triggers(batch[i], loadedName);
    }
  }

  /** A batch made only of OVERFLOW events never asks for a reload. */
  lemma OverflowOnlyNeverTriggers(batch: seq<WatchEvent>, loadedName: Option<string>)
    requires forall i :: 0 <= i < |batch| ==> batch[i] == Overflow
    ensures !BatchTriggers(batch, loadedName)
  {
  }

  /** A change to any of the loaded avatar's three files, reported in a
      watched directory, asks for a reload. */
  lemma OwnFilesTrigger(table: map<string, WatchKey>, events: map<string, seq<WatchEvent>>, name: string, i: nat)
    requires ContentDirectory in table && i < |Polled(events, ContentDirectory)|
    requires Polled(events, ContentDirectory)[i] in
      {EntryModify(Resolve(name).json.file), EntryModify(Resolve(name).png.file), EntryModify(Resolve(name).lua.file)}
    ensures ShouldReload(table, events, Some(name))
  {
    ResolvedStems(name);
    assert Triggers(Polled(events, ContentDirectory)[i], Some(name));
  }

  /** Changes to another avatar's files never ask for a reload. */
  lemma OtherFilesDoNotTrigger(table: map<string, WatchKey>, events: map<string, seq<WatchEvent>>, name: string)
    requires forall dir, i :: dir in table && 0 <= i < |Polled(events, dir)| && Polled(events, dir)[i].EntryModify? ==>
      RemoveExtension(Polled(events, dir)[i].fileName) != name
    ensures !ShouldReload(table, events, Some(name))
  {
  }

  /** An empty watch table never asks for a reload, whatever the events. */
  lemma EmptyTableNeverReloads(events: map<string, seq<WatchEvent>>, loadedName: Option<string>)
    ensures !ShouldReload(map[], events, loadedName)
  {
  }

}
