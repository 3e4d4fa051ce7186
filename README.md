# Local avatar hot reload (Figura `LocalPlayerData`)

A Dafny model of how Figura's local player object loads its avatar from
disk and reloads it when the avatar's files change. An avatar named `n`
is three sibling files in the content directory: `n.json` (the model
definition, required), `n.png` (the texture, required) and `n.lua` (the
script, optional). Once per frame, `tick` starts the texture upload that
the last load armed. It then drains the directory watch keys and reloads
the avatar when a changed file's stem is the loaded name.

The model replaces every file access and host call with an answer given
as input. A `Reload.Disk` value says which files exist and whether the
watch-service registration succeeds (and with which key). It says whether
the definition reads and parses, and whether the parser returned null for
an empty document. It also says whether the host's texture registration
returns normally, and whether the script reads and builds. The events
drained this tick are a map from each watched directory to its event list.
Each early `return` and each `catch` in the source is a branch of the model:

- `texturePath` is overwritten before the existence check, so it changes even when nothing else does.
- The content directory is registered only when the watch table lacks it; a registration that throws adds nothing.
- `loadedName` is set as soon as both required files exist, before the definition is parsed.
- A definition that throws while being read or parsed ends the load with model, texture, flag and script untouched.
- A definition that parses to null (an empty document) is stored as the model; then setting its owner throws and the load ends.
- A new texture object replaces the old one before registration is attempted. The upload flag is raised only when registration returns normally.
- A missing or unbuildable script leaves the previous script in place.
- OVERFLOW events are skipped. A tick reloads at most once, after emptying the watch table.

Files: `options.dfy` (nullable values), `paths.dfy` (name → paths, file name → stem),
`watch.dfy` (watch events and the scan that decides a reload), `reload.dfy`
(the fields as a value and one function per operation, with the properties proved
about them), `local_player_data.dfy` (the class, whose methods update its fields
step by step and are proved equal to the functions of `reload.dfy`).

The code keeps no load generation counter, so an upload started for an
earlier load is never told apart from one for a later load. A load is not
all-or-nothing. The name, the model and the new texture object are
committed before later steps can fail. A failed script read keeps the old
script and does not undo the rest of the load. An OVERFLOW event (lost
events) is ignored and never forces a reload.

## Model

| member | source | states |
|---|---|---|
| `Paths.Resolve` | src/main/java/net/blancworks/figura/LocalPlayerData.java:59-62 | the three paths lie in the one content directory and are the name followed by `.json`, `.png` and `.lua` |
| `Paths.ResolvedStems` | src/main/java/net/blancworks/figura/LocalPlayerData.java:60-62 | removing the extension of each resolved file gives the avatar name back, and the three files are distinct |
| `Paths.ResolveInjective` | src/main/java/net/blancworks/figura/LocalPlayerData.java:60-62 | two names sharing any resolved file are the same name |
| `Paths.LastIndexOf` | src/main/java/net/blancworks/figura/LocalPlayerData.java:197 | the result is the position of the last occurrence of the character, or -1 when it does not occur |
| `Paths.RemoveExtension` | src/main/java/net/blancworks/figura/LocalPlayerData.java:197 | the stem is a prefix of the file name: the whole name without a dot, otherwise the part before a dot after which no dot follows |
| `Paths.StemOfSuffixed` | src/main/java/net/blancworks/figura/LocalPlayerData.java:197 | a name with one extension appended has that name as its stem, whatever dots the name holds |
| `Watch.Triggers` | src/main/java/net/blancworks/figura/LocalPlayerData.java:181-201 | only a non-OVERFLOW event can ask for a reload, and only when a name is loaded |
| `Watch.ShouldReload` | src/main/java/net/blancworks/figura/LocalPlayerData.java:168-207 | a reload is asked for only when a name is loaded |
| `Watch.ScanForReload` | src/main/java/net/blancworks/figura/LocalPlayerData.java:168-207 | the scan over every watched directory's events raises the flag if and only if some non-OVERFLOW event's stem equals the loaded name |
| `Watch.OverflowIgnored` | src/main/java/net/blancworks/figura/LocalPlayerData.java:181-183 | inserting an OVERFLOW event anywhere in a batch never changes the reload decision |
| `Watch.OverflowOnlyNeverTriggers` | src/main/java/net/blancworks/figura/LocalPlayerData.java:181-183 | a batch of OVERFLOW events alone never asks for a reload |
| `Watch.OwnFilesTrigger` | src/main/java/net/blancworks/figura/LocalPlayerData.java:195-201 | a change to the loaded avatar's `.json`, `.png` or `.lua` in a watched directory asks for a reload |
| `Watch.OtherFilesDoNotTrigger` | src/main/java/net/blancworks/figura/LocalPlayerData.java:195-201 | when no changed file has the loaded name as its stem, no reload is asked for |
| `Watch.EmptyTableNeverReloads` | src/main/java/net/blancworks/figura/LocalPlayerData.java:170-173 | with an empty watch table no events are seen and no reload is asked for |
| `Reload.StageOf` | src/main/java/net/blancworks/figura/LocalPlayerData.java:65-92 | the load stops at the existence check exactly when the definition or texture file is missing; past it, the stage is a parse failure exactly when reading or parsing throws, an empty document exactly when the parser returns null, and a parsed model otherwise |
| `Reload.WatchContentDirectory` | src/main/java/net/blancworks/figura/LocalPlayerData.java:68-74 | existing entries are kept unchanged, only the content directory can be added, and it is added only when absent and registration succeeds, with the key registration returned |
| `Reload.LoadModelFile` | src/main/java/net/blancworks/figura/LocalPlayerData.java:58-117 | the texture path is always the requested `.png`; a missing file changes nothing else; the name is committed before parsing; a parse failure keeps model, flag and script; the flag is armed only by a successful registration; the script changes only to one that was read and built |
| `Reload.LoadTwiceSameAsOnce` | src/main/java/net/blancworks/figura/LocalPlayerData.java:58-117 | loading a name again against unchanged files leaves every field as the first load left it |
| `Reload.LateLoadTexture` | src/main/java/net/blancworks/figura/LocalPlayerData.java:150-164 | an upload is started exactly when the flag is armed; afterwards the flag is clear and nothing else has changed |
| `Reload.LateLoadOnce` | src/main/java/net/blancworks/figura/LocalPlayerData.java:151-152 | a second call right after the first starts no upload |
| `Reload.TickFileWatchers` | src/main/java/net/blancworks/figura/LocalPlayerData.java:209-213 | without a matching event nothing changes; with one, exactly one load of the loaded name runs on an emptied table, the loaded name is kept, the table holds at most the content directory, and it stays empty when the files are gone |
| `Reload.Tick` | src/main/java/net/blancworks/figura/LocalPlayerData.java:47-53 | the pending upload is started before the watchers run, so a texture armed by this tick's reload is uploaded on the next tick |
| `Reload.AtMostOneReloadPerTick` | src/main/java/net/blancworks/figura/LocalPlayerData.java:209-212 | over any run of ticks there are at most as many reloads, and as many uploads, as ticks; every reload is of the name loaded when the run began, and that name never changes |
| `Reload.EachArmingUploadsOnce` | src/main/java/net/blancworks/figura/LocalPlayerData.java:150-153 | over any run, the uploads plus one still pending at the end equal the ticks whose reload registered a texture plus one pending at the start: each arming is uploaded exactly once |
| `Reload.UnwatchedNeverReloads` | src/main/java/net/blancworks/figura/LocalPlayerData.java:209-212 | from an empty watch table no tick ever reloads anything, and only the upload flag can change |
| `Reload.OrphanedAfterMissingReload` | src/main/java/net/blancworks/figura/LocalPlayerData.java:209-212 | a reload that finds the files gone is the last reload ticks will ever perform |
| `LocalPlayer.LocalPlayerData.constructor` | src/main/java/net/blancworks/figura/LocalPlayerData.java:31-35 | a new object has no loaded name, an empty watch table, a clear flag and no texture path, model, texture or script |
| `LocalPlayer.LocalPlayerData.LoadModelFile` | src/main/java/net/blancworks/figura/LocalPlayerData.java:58-117 | the fields become `Reload.LoadModelFile` of the old fields; the texture is a fresh object named after the player when the definition parsed, and otherwise unchanged; the load is recorded once in the load log |
| `LocalPlayer.LocalPlayerData.LateLoadTexture` | src/main/java/net/blancworks/figura/LocalPlayerData.java:150-164 | the fields and the started upload are those of `Reload.LateLoadTexture` |
| `LocalPlayer.LocalPlayerData.TickFileWatchers` | src/main/java/net/blancworks/figura/LocalPlayerData.java:166-215 | it reloads exactly when `Watch.ShouldReload` holds of the old table; the load log grows by exactly the loaded name when it reloads and by nothing otherwise, however many events match; the fields become `Reload.TickFileWatchers` of the old fields and the texture is replaced only by that reload |
| `LocalPlayer.LocalPlayerData.Tick` | src/main/java/net/blancworks/figura/LocalPlayerData.java:47-53 | the new fields, the started upload and the reload are those of `Reload.Tick`; at most one load, of the loaded name, is logged; the texture is replaced only by that reload |

## Left out

- Loading an avatar from the binary save format (`loadModelFileNBT`, both overloads): it depends on the NBT reader and on `fromNBT` of `PlayerData`, and `PlayerData` is not part of this model.
- LocalPlayer.LocalPlayerData.LateLoadTexture: says only whether the upload task is started. The task itself (loading the pixels, setting `ready`) runs on a worker pool and is not modelled. That task reads the `texture` and `texturePath` fields when it runs, not when it is started.
- The watch service itself (its static creation, `pollEvents`, keys that are never reset or cancelled): events arrive as an input per watched directory string. A registration that fails because the service could not be created is one of the failed registrations.
- Gson with the Bedrock model deserializer, the `CustomModel` contents, Lua and `CustomScript`, and the host's `registerTexture`: each is reduced to a success or failure answer and an opaque value. Setting the parsed model's owner is not modelled beyond the exception it throws on a null model.
- The host environment: the game directory lookup (the content directory is one constant), `isLoaded`, `super.tick()` and all logging.
- `removeExtension` is modelled on bare file names only: its handling of path separators and of Windows alternate data streams is left out.
- File names are single path components: a name holding a separator or an absolute path, which `Path.resolve` would treat differently, is not modelled, and neither is a null name.
- The texture object's pixels and `ready` flag: `FiguraTexture` is not part of this model beyond its identifier.
