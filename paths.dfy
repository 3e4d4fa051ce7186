/**
 * Resolution of an avatar name to its three sibling files, and the
 * file-name-to-stem helper used to match watch events against the
 * loaded avatar (the effect of Apache Commons' `removeExtension` on a
 * bare file name).
 */
module Paths {

  /** The directory holding every avatar's files: the game directory's
      parent resolved against "model_files". It is fixed for the whole
      process, so the model keeps it as one constant string. */
  const ContentDirectory: string := "model_files"

  const JsonSuffix: string := ".json"
  const PngSuffix: string := ".png"
  const LuaSuffix: string := ".lua"

  /** A file inside a directory; `file` is a single path component. */
  datatype Path = Path(dir: string, file: string)

  /** The model definition, texture and script of one avatar. */
  datatype AvatarPaths = AvatarPaths(json: Path, png: Path, lua: Path)

  /** A suffix made of one dot and an extension without further dots. */
  predicate IsExtension(suffix: string)
  {
    |suffix| > 0 && suffix[0] == '.' && '.' !in suffix[1..]
  }

  /** Position of the last occurrence of `c` in `s`, or -1 when there is none. */
  function LastIndexOf(s: string, c: char): (r: int)
    ensures -1 <= r < |s|
    ensures r >= 0 ==> s[r] == c
    ensures forall i :: r < i < |s| ==> s[i] != c
  {
    if |s| == 0 then -1
    else if s[|s| - 1] == c then |s| - 1
    else LastIndexOf(s[..|s| - 1], c)
  }

  /** The file name without its last extension: everything before the last
      dot, or the whole name when it has no dot. */
  function RemoveExtension(fileName: string): (stem: string)
    ensures stem <= fileName
    ensures '.' !in fileName ==> stem == fileName
    ensures '.' in fileName ==>
      |stem| < |fileName| && fileName[|stem|] == '.' && '.' !in fileName[|stem| + 1..]
  {
    var k := LastIndexOf(fileName, '.');
    if k < 0 then fileName else fileName[..k]
  }

  /** Appending one extension to a name and removing the last extension
      gives the name back, whatever dots the name itself holds. */
  lemma {:induction false} StemOfSuffixed(name: string, suffix: string)
    requires IsExtension(suffix)
    ensures RemoveExtension(name + suffix) == name
  {
    var s := name + suffix;
    var k := LastIndexOf(s, '.');
    assert s[|name|] == '.';
    assert k >= |name|;
    assert s[..k] == name;
  }

  /** The content directory and the three sibling files of avatar `name`.
      A path is produced whether or not the file exists. */
  function Resolve(name: string): (p: AvatarPaths)
    ensures p.json.dir == ContentDirectory && p.png.dir == ContentDirectory && p.lua.dir == ContentDirectory
    ensures p.json.file == name + JsonSuffix && p.png.file == name + PngSuffix && p.lua.file == name + LuaSuffix
  {
    AvatarPaths(
      Path(ContentDirectory, name + JsonSuffix),
      Path(ContentDirectory, name + PngSuffix),
      Path(ContentDirectory, name + LuaSuffix))
  }

  /** The three resolved files share the avatar's name as their stem and
      differ only in their extension, so they are three distinct files. */
  lemma ResolvedStems(name: string)
    ensures RemoveExtension(Resolve(name).json.file) == name
    ensures RemoveExtension(Resolve(name).png.file) == name
    ensures RemoveExtension(Resolve(name).lua.file) == name
    ensures Resolve(name).json != Resolve(name).png && Resolve(name).png != Resolve(name).lua
    ensures Resolve(name).json != Resolve(name).lua
  {
    StemOfSuffixed(name, JsonSuffix);
    StemOfSuffixed(name, PngSuffix);
    StemOfSuffixed(name, LuaSuffix);
    assert Resolve(name).json.file[|name|..] == JsonSuffix;
    assert Resolve(name).png.file[|name|..] == PngSuffix;
    assert Resolve(name).lua.file[|name|..] == LuaSuffix;
  }

  /** Two avatar names that resolve to the same files are the same name. */
  lemma ResolveInjective(a: string, b: string)
    requires Resolve(a).json == Resolve(b).json || Resolve(a).png == Resolve(b).png || Resolve(a).lua == Resolve(b).lua
    ensures a == b
  {
    ResolvedStems(a);
    ResolvedStems(b);
  }

}
