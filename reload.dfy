/**
 * The reload state machine of the local player's avatar, on values: the
 * fields that `loadModelFile`, `lateLoadTexture` and `tickFileWatchers`
 * update, and one function per operation giving the new fields from the
 * old ones and from what the file system and the host answer.
 */
module Reload {
  import opened Options
  import opened Paths
  import opened Watch

  /** A parsed model definition (its contents are the parser's business). */
  datatype CustomModel = CustomModel(definition: string)

  /** A script built from the avatar's script source. */
  datatype CustomScript = CustomScript(source: string)

  /** What the outside world answers during one load:
      - `existing`: the files that exist;
      - `watchRegistration`: the key returned by registering the content
        directory with the watch service, or None when registering throws;
      - `models`: for each definition file that is read and parsed without an
        exception, the parsed model, or None when the parser returns null
        (an empty document);
      - `textureRegisters`: the host's texture registration returns normally;
      - `scripts`: for each script file that is read and built without an
        exception, the script. */
  datatype Disk = Disk(
    existing: set<Path>,
    watchRegistration: Option<WatchKey>,
    models: map<Path, Option<CustomModel>>,
    textureRegisters: bool,
    scripts: map<Path, CustomScript>)

  /** The fields the reload logic reads and writes. */
  datatype PlayerState = PlayerState(
    loadedName: Option<string>,
    watchKeys: map<string, WatchKey>,
    didTextureLoad: bool,
    texturePath: Option<Path>,
    model: Option<CustomModel>,
    script: Option<CustomScript>)

  const Initial: PlayerState := PlayerState(None, map[], false, None, None, None)

  /** How far a load of `name` gets before it returns. */
  datatype LoadStage =
    | MissingArtifact   // the definition or the texture file does not exist
    | ParseFailed       // reading or parsing the definition threw
    | EmptyDocument     // the parser returned null; using it throws
    | ModelParsed       // the model is set; texture and script steps run

  function StageOf(disk: Disk, name: string): (stage: LoadStage)
    ensures stage == MissingArtifact <==> Resolve(name).json !in disk.existing || Resolve(name).png !in disk.existing
    ensures stage in {EmptyDocument, ModelParsed} ==> Resolve(name).json in disk.models
    ensures stage == ParseFailed <==> stage != MissingArtifact && Resolve(name).json !in disk.models
    ensures stage == EmptyDocument <==> stage != MissingArtifact && Resolve(name).json in disk.models && disk.models[Resolve(name).json].None?
    ensures stage == ModelParsed <==> stage != MissingArtifact && Resolve(name).json in disk.models && disk.models[Resolve(name).json].Some?
  {
    var p := Resolve(name);
    if p.json !in disk.existing || p.png !in disk.existing then MissingArtifact
    else if p.json !in disk.models then ParseFailed
    else if disk.models[p.json].None? then EmptyDocument
    else ModelParsed
  }

  /** Registers the content directory unless the table already holds it; a
      registration that throws leaves the table as it was. */
  function WatchContentDirectory(table: map<string, WatchKey>, registration: Option<WatchKey>): (r: map<string, WatchKey>)
    ensures forall dir :: dir in table ==> dir in r && r[dir] == table[dir]
    ensures r.Keys <= table.Keys + {ContentDirectory}
    ensures ContentDirectory in r <==> ContentDirectory in table || registration.Some?
    ensures ContentDirectory in r && ContentDirectory !in table ==> registration == Some(r[ContentDirectory])
  {
    if ContentDirectory in table then table
    else match registration
      case Some(key) => table[ContentDirectory := key]
      case None => table
  }

  /** `loadModelFile(name)`, field by field, in the order the fields are assigned. */
  function LoadModelFile(s: PlayerState, disk: Disk, name: string): (r: PlayerState)
    // the texture path always points at the requested texture, even when nothing else changes
    ensures r.texturePath == Some(Resolve(name).png)
    // a missing definition or texture changes nothing else
    ensures StageOf(disk, name) == MissingArtifact ==> r == s.(texturePath := r.texturePath)
    // the name is committed as soon as both required files exist, before parsing
    ensures r.loadedName == if StageOf(disk, name) == MissingArtifact then s.loadedName else Some(name)
    ensures r.watchKeys == if StageOf(disk, name) == MissingArtifact then s.watchKeys
                           else WatchContentDirectory(s.watchKeys, disk.watchRegistration)
    // a definition that fails to parse leaves model, texture flag and script alone
    ensures StageOf(disk, name) in {MissingArtifact, ParseFailed} ==> r.model == s.model
    ensures StageOf(disk, name) in {EmptyDocument, ModelParsed} ==> r.model == disk.models[Resolve(name).json]
    // the upload flag is armed only by a successful texture registration, and never cleared here
    ensures r.didTextureLoad <==> s.didTextureLoad || (StageOf(disk, name) == ModelParsed && disk.textureRegisters)
    // the script is replaced only by one that was read and built; otherwise the old one stays
    ensures r.script == if StageOf(disk, name) == ModelParsed && Resolve(name).lua in disk.scripts
                        then Some(disk.scripts[Resolve(name).lua]) else s.script
  {
    var p := Resolve(name);
    var s1 := s.(texturePath := Some(p.png));
    if p.json !in disk.existing || p.png !in disk.existing then s1
    else
      var s2 := s1.(watchKeys := WatchContentDirectory(s1.watchKeys, disk.watchRegistration), loadedName := Some(name));
      if p.json !in disk.models then s2
      else
        var s3 := s2.(model := disk.models[p.json]);
        if s3.model.None? then s3
        else
          var s4 := if disk.textureRegisters then s3.(didTextureLoad := true) else s3;
          if p.lua in disk.scripts then s4.(script := Some(disk.scripts[p.lua])) else s4
  }

  /** Whether a load of `name` replaces the texture object (it is replaced
      before registration is attempted, so also when registration fails). */
  predicate ReplacesTexture(disk: Disk, name: string)
  {
    StageOf(disk, name) == ModelParsed
  }

  /** Loading the same name twice against unchanged files ends in the same
      fields as loading it once (only the texture object is new). */
  lemma LoadTwiceSameAsOnce(s: PlayerState, disk: Disk, name: string)
    ensures LoadModelFile(LoadModelFile(s, disk, name), disk, name) == LoadModelFile(s, disk, name)
  {
  }

  /** `lateLoadTexture`: consumes the upload flag; `uploadScheduled` says
      whether the asynchronous upload was started. */
  datatype LateLoad = LateLoad(state: PlayerState, uploadScheduled: bool)

  function LateLoadTexture(s: PlayerState): (r: LateLoad)
    ensures r.uploadScheduled == s.didTextureLoad
    ensures !r.state.didTextureLoad
    ensures r.state.(didTextureLoad := s.didTextureLoad) == s
  {
    if s.didTextureLoad then LateLoad(s.(didTextureLoad := false), true)
    else LateLoad(s, false)
  }

  /** One arming schedules one upload: a second call schedules nothing. */
  lemma LateLoadOnce(s: PlayerState)
    ensures !LateLoadTexture(LateLoadTexture(s).state).uploadScheduled
  {
  }

  /** `tickFileWatchers`: at most one reload, after emptying the watch table. */
  function TickFileWatchers(s: PlayerState, disk: Disk, events: map<string, seq<WatchEvent>>): (r: PlayerState)
    ensures !ShouldReload(s.watchKeys, events, s.loadedName) ==> r == s
    // a reload reloads the loaded name, so the name itself never changes here
    ensures r.loadedName == s.loadedName
    // a reload rebuilds the table from empty: only the content directory can be in it
    ensures ShouldReload(s.watchKeys, events, s.loadedName) ==> r.watchKeys.Keys <= {ContentDirectory}
    ensures ShouldReload(s.watchKeys, events, s.loadedName) ==>
      r == LoadModelFile(s.(watchKeys := map[]), disk, s.loadedName.value)
    // a reload that stops at the existence check leaves the table empty
    ensures ShouldReload(s.watchKeys, events, s.loadedName) && StageOf(disk, s.loadedName.value) == MissingArtifact ==>
      r.watchKeys == map[]
  {
    if ShouldReload(s.watchKeys, events, s.loadedName) then
      LoadModelFile(s.(watchKeys := map[]), disk, s.loadedName.value)
    else s
  }

  /** What one tick is given: the answers of the file system and the host,
      and the events drained from each watched directory. */
  datatype TickInput = TickInput(disk: Disk, events: map<string, seq<WatchEvent>>)

  datatype TickResult = TickResult(state: PlayerState, uploadScheduled: bool, reloaded: bool)

  /** `tick`: the pending upload is started first, then the watchers are polled. */
  function Tick(s: PlayerState, input: TickInput): (r: TickResult)
    ensures r.uploadScheduled == s.didTextureLoad
    ensures r.reloaded == ShouldReload(s.watchKeys, input.events, s.loadedName)
    ensures !r.reloaded ==> r.state == s.(didTextureLoad := false)
    ensures r.state.loadedName == s.loadedName
    // a texture registered by this tick's reload is uploaded on the next tick, not this one
    ensures r.reloaded ==> r.state.didTextureLoad == (ReplacesTexture(input.disk, s.loadedName.value) && input.disk.textureRegisters)
  {
    var late := LateLoadTexture(s);
    var reloaded := ShouldReload(late.state.watchKeys, input.events, late.state.loadedName);
    TickResult(TickFileWatchers(late.state, input.disk, input.events), late.uploadScheduled, reloaded)
  }

  function Count(b: bool): nat { if b then 1 else 0 }

  /** Whether a tick arms the upload flag: it reloads, the definition parses
      to a model and the texture registers. */
  predicate ArmsUpload(s: PlayerState, input: TickInput)
  {
    ShouldReload(s.watchKeys, input.events, s.loadedName) &&
    ReplacesTexture(input.disk, s.loadedName.value) && input.disk.textureRegisters
  }

  /** A run of consecutive ticks, recording the uploads started, the names
      reloaded, in order, and the ticks that arm the upload flag. */
  datatype RunResult = RunResult(state: PlayerState, uploads: nat, loads: seq<string>, armings: nat)

  function Run(s: PlayerState, inputs: seq<TickInput>): RunResult
    decreases |inputs|
  {
    if inputs == [] then RunResult(s, 0, [], 0)
    else
      var t := Tick(s, inputs[0]);
      var rest := Run(t.state, inputs[1..]);
      RunResult(rest.state,
        Count(t.uploadScheduled) + rest.uploads,
        (if t.reloaded then [s.loadedName.value] else []) + rest.loads,
        Count(ArmsUpload(s, inputs[0])) + rest.armings)
  }

  /** However many events match, each tick reloads at most once, and every
      reload is of the name that was loaded when the run began: ticks never
      switch to another avatar. */
  lemma {:induction false} AtMostOneReloadPerTick(s: PlayerState, inputs: seq<TickInput>)
    decreases |inputs|
    ensures |Run(s, inputs).loads| <= |inputs|
    ensures Run(s, inputs).uploads <= |inputs|
    ensures forall i :: 0 <= i < |Run(s, inputs).loads| ==> Some(Run(s, inputs).loads[i]) == s.loadedName
    ensures Run(s, inputs).state.loadedName == s.loadedName
  {
    if inputs != [] {
      AtMostOneReloadPerTick(Tick(s, inputs[0]).state, inputs[1..]);
    }
  }

  /** Every arming of the upload flag is consumed by exactly one upload:
      the uploads of a run, plus one if an upload is still pending at its
      end, equal the ticks that armed the flag, plus one if an upload was
      pending at its start. */
  lemma {:induction false} EachArmingUploadsOnce(s: PlayerState, inputs: seq<TickInput>)
    decreases |inputs|
    ensures Run(s, inputs).uploads + Count(Run(s, inputs).state.didTextureLoad)
         == Run(s, inputs).armings + Count(s.didTextureLoad)
  {
    if inputs != [] {
      EachArmingUploadsOnce(Tick(s, inputs[0]).state, inputs[1..]);
    }
  }

  /** Once the watch table is empty, no tick reloads again: the table, the
      loaded name, the model, the script and the texture path stay as they are. */
  lemma {:induction false} UnwatchedNeverReloads(s: PlayerState, inputs: seq<TickInput>)
    requires s.watchKeys == map[]
    decreases |inputs|
    ensures Run(s, inputs).loads == []
    ensures Run(s, inputs).state.(didTextureLoad := s.didTextureLoad) == s
  {
    if inputs != [] {
      var t := Tick(s, inputs[0]);
      EmptyTableNeverReloads(inputs[0].events, s.loadedName);
      UnwatchedNeverReloads(t.state, inputs[1..]);
    }
  }

  /** A reload whose files have disappeared empties the watch table for good:
      that tick reloads and no later tick ever does. */
  lemma {:induction false} OrphanedAfterMissingReload(s: PlayerState, input: TickInput, later: seq<TickInput>)
    requires ShouldReload(s.watchKeys, input.events, s.loadedName)
    requires StageOf(input.disk, s.loadedName.value) == MissingArtifact
    ensures Run(s, [input] + later).loads == [s.loadedName.value]
  {
    var t := Tick(s, input);
    UnwatchedNeverReloads(t.state, later);
    assert ([input] + later)[1..] == later;
  }

}
