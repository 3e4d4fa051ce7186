/**
 * The local player's data object: the fields the avatar reload logic
 * updates in place, and its methods. Each method's new fields are tied to
 * the matching function of module Reload, where its properties are proved.
 */
module LocalPlayer {
  import opened Options
  import opened Paths
  import opened Watch
  import Reload

  /** A texture's resource identifier: a namespace and a path. */
  datatype Identifier = Identifier(namespace: string, path: string)

  /** The texture object handed to the host; its pixels are uploaded later. */
  class FiguraTexture {
    var id: Option<Identifier>

    constructor()
      ensures id == None
    {
      id := None;
    }
  }

  class LocalPlayerData {
    /** The player's UUID, as text; it names the avatar's texture. */
    const playerId: string

    var loadedName: Option<string>
    var watchKeys: map<string, WatchKey>
    var didTextureLoad: bool
    var texturePath: Option<Path>
    var model: Option<Reload.CustomModel>
    var texture: FiguraTexture?
    var script: Option<Reload.CustomScript>

    /** The names passed to `LoadModelFile` so far, oldest first. */
    ghost var loads: seq<string>

    /** The reload-related fields as one value. */
    function State(): Reload.PlayerState
      reads this
    {
      Reload.PlayerState(loadedName, watchKeys, didTextureLoad, texturePath, model, script)
    }

    constructor(playerId: string)
      ensures this.playerId == playerId
      ensures State() == Reload.Initial && texture == null && loads == []
    {
      this.playerId := playerId;
      loads := [];
      loadedName := None;
      watchKeys := map[];
      didTextureLoad := false;
      texturePath := None;
      model := None;
      texture := null;
      script := None;
    }

    /** Loads avatar `fileName` from the content directory; `disk` gives
        what each file access and host call answers. */
    method LoadModelFile(fileName: string, disk: Reload.Disk)
      modifies this
      ensures State() == Reload.LoadModelFile(old(State()), disk, fileName)
      ensures Reload.ReplacesTexture(disk, fileName) ==>
        fresh(texture) && texture.id == Some(Identifier("figura", playerId))
      ensures !Reload.ReplacesTexture(disk, fileName) ==> texture == old(texture)
      ensures loads == old(loads) + [fileName]
    {
      loads := loads + [fileName];
      ghost var target := Reload.LoadModelFile(State(), disk, fileName);
      var paths := Resolve(fileName);
      var jsonPath := paths.json;
      texturePath := Some(paths.png);
      var scriptPath := paths.lua;

      // Avatars may lack a script, but not a definition or a texture.
      if jsonPath !in disk.existing || paths.png !in disk.existing {
        assert State() == target && !Reload.ReplacesTexture(disk, fileName);
        return;
      }

      if ContentDirectory !in watchKeys {
        match disk.watchRegistration
        case Some(key) =>
          watchKeys := watchKeys[ContentDirectory := key];
        case None =>
          // registering threw; the exception is only logged
      }

      loadedName := Some(fileName);

      if jsonPath !in disk.models {
        // reading or parsing the definition threw
        assert !Reload.ReplacesTexture(disk, fileName);
        return;
      }
      var mdl := disk.models[jsonPath];
      model := mdl;
      if mdl.None? {
        // the parser returned null: setting its owner throws
        assert !Reload.ReplacesTexture(disk, fileName);
        return;
      }

      assert Reload.ReplacesTexture(disk, fileName);
      var id := Identifier("figura", playerId);
      texture := new FiguraTexture();
      texture.id := Some(id);
      if disk.textureRegisters {
        didTextureLoad := true;
      }

      if scriptPath !in disk.scripts {
        // the script file is missing or could not be read or built
        return;
      }
      script := Some(disk.scripts[scriptPath]);
    }

    /** Starts the pending texture upload, once per arming. */
    method LateLoadTexture() returns (uploadScheduled: bool)
      modifies this
      ensures State() == Reload.LateLoadTexture(old(State())).state
      ensures uploadScheduled == Reload.LateLoadTexture(old(State())).uploadScheduled
      ensures texture == old(texture) && loads == old(loads)
    {
      uploadScheduled := false;
      if didTextureLoad {
        didTextureLoad := false;
        uploadScheduled := true;
      }
    }

    /** Drains the watch keys and reloads the avatar at most once when one
        of the changed files is the loaded avatar's. */
    method TickFileWatchers(disk: Reload.Disk, events: map<string, seq<WatchEvent>>) returns (reloaded: bool)
      modifies this
      ensures reloaded == ShouldReload(old(watchKeys), events, old(loadedName))
      ensures State() == Reload.TickFileWatchers(old(State()), disk, events)
      ensures reloaded && Reload.ReplacesTexture(disk, old(loadedName).value) ==>
        fresh(texture) && texture.id == Some(Identifier("figura", playerId))
      ensures !(reloaded && Reload.ReplacesTexture(disk, old(loadedName).value)) ==> texture == old(texture)
      // one load of the loaded name when an event matches, however many do; none otherwise
      ensures loads == old(loads) + (if reloaded then [old(loadedName).value] else [])
    {
      var doReload := ScanForReload(watchKeys, events, loadedName);
      if doReload {
        watchKeys := map[];
        LoadModelFile(loadedName.value, disk);
      }
      reloaded := doReload;
    }

    /** The per-frame update: the pending upload first, then the watchers. */
    method Tick(disk: Reload.Disk, events: map<string, seq<WatchEvent>>) returns (uploadScheduled: bool, reloaded: bool)
      modifies this
      ensures Reload.Tick(old(State()), Reload.TickInput(disk, events))
           == Reload.TickResult(State(), uploadScheduled, reloaded)
      ensures reloaded && Reload.ReplacesTexture(disk, old(loadedName).value) ==>
        fresh(texture) && texture.id == Some(Identifier("figura", playerId))
      ensures !(reloaded && Reload.ReplacesTexture(disk, old(loadedName).value)) ==> texture == old(texture)
      ensures loads == old(loads) + (if reloaded then [old(loadedName).value] else [])
    {
      uploadScheduled := LateLoadTexture();
      reloaded := TickFileWatchers(disk, events);
    }
  }

}
