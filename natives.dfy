/**
 * Natives: choosing the platform loader, building the path of each bundled
 * native library, and loading all of them, stopping at the first failure
 * (VSImGui/source/Utils/NativesLoader.cs).
 *
 * The operating system is a parameter, and the platform's load call
 * (LoadLibrary on Windows, dlopen elsewhere) is a function from the loader
 * and the path to the returned handle, 0 standing for a null handle.
 */
module Natives {
  import opened Wrappers

  /** The runtime OS; `OtherOS` is any value outside the three named ones. */
  datatype OS = Windows | Mac | Linux | OtherOS

  datatype LoaderKind = WindowsLoader | MacLoader | LinuxLoader

  /** `DllLoader.Loader()`: the loader for the OS, the Windows loader by default. */
  function LoaderFor(os: OS): (k: LoaderKind)
    ensures k == MacLoader <==> os == Mac
    ensures k == LinuxLoader <==> os == Linux
    ensures k == WindowsLoader <==> os == Windows || os == OtherOS
  {
    match os
    case Windows => WindowsLoader
    case Mac => MacLoader
    case Linux => LinuxLoader
    case OtherOS => WindowsLoader
  }

  function Suffix(os: OS): string {
    match os
    case Windows => ".dll"
    case Mac => ".dylib"
    case Linux => ".so"
    case OtherOS => ".so"
  }

  function Prefix(os: OS): string {
    match os
    case Windows => "win/"
    case Mac => "mac/"
    case Linux => "linux/"
    case OtherOS => "linux"
  }

  /** `{folder}/native/{prefix}{name}{suffix}`. */
  function LibraryPath(folder: string, os: OS, name: string): (p: string)
    ensures |p| == |folder| + 8 + |Prefix(os)| + |name| + |Suffix(os)|
  {
    folder + "/native/" + Prefix(os) + name + Suffix(os)
  }

  /** The platform directory and extension the loader's documentation promises. */
  function Documented(os: OS): (string, string)
    requires os != OtherOS
  {
    match os
    case Windows => ("win", ".dll")
    case Linux => ("linux", ".so")
    case Mac => ("mac", ".dylib")
  }

  function DocumentedPath(folder: string, dir: string, name: string, ext: string): string {
    folder + "/native/" + dir + "/" + name + ext
  }

  /** On the three named systems the path is the documented `/native/{dir}/{name}{ext}`. */
  lemma PathMatchesDocumentation(folder: string, os: OS, name: string)
    requires os != OtherOS
    ensures LibraryPath(folder, os, name) == DocumentedPath(folder, Documented(os).0, name, Documented(os).1)
  {
    var (dir, ext) := Documented(os);
    assert Prefix(os) == dir + "/";
    assert Suffix(os) == ext;
    calc {
      LibraryPath(folder, os, name);
      folder + "/native/" + (dir + "/") + name + ext;
      { assert folder + "/native/" + (dir + "/") == folder + "/native/" + dir + "/"; }
      DocumentedPath(folder, dir, name, ext);
    }
  }

  /**
   * On any other system the suffix is `.so` and the prefix is `linux` with no
   * separator, so the file name is glued to the directory name.
   */
  lemma UnknownOsPath(folder: string, name: string)
    ensures LibraryPath(folder, OtherOS, name) == folder + "/native/linux" + name + ".so"
    ensures LibraryPath(folder, OtherOS, name) != DocumentedPath(folder, "linux", name, ".so")
  {
    assert |DocumentedPath(folder, "linux", name, ".so")| == |LibraryPath(folder, OtherOS, name)| + 1;
  }

  /** The library name is read back from its path: distinct libraries load distinct files. */
  lemma NameFromPath(folder: string, os: OS, name: string)
    ensures var p := LibraryPath(folder, os, name);
      p[|folder| + 8 + |Prefix(os)| .. |p| - |Suffix(os)|] == name
  {
    var head := folder + "/native/" + Prefix(os);
    var p := LibraryPath(folder, os, name);
    assert p == head + name + Suffix(os);
    assert |head| == |folder| + 8 + |Prefix(os)|;
    assert p[|head|..|p| - |Suffix(os)|] == name;
  }

  lemma PathInjective(folder: string, os: OS, a: string, b: string)
    requires LibraryPath(folder, os, a) == LibraryPath(folder, os, b)
    ensures a == b
  {
    NameFromPath(folder, os, a);
    NameFromPath(folder, os, b);
  }

  function UnableToLoad(path: string): string {
    "Unable to load library: " + path
  }

  /** What a platform load reports: success, or the fatal message it logs. */
  datatype LoadOutcome = LoadOutcome(ok: bool, fatal: Option<string>)

  /**
   * `Load(dllPath, logger)` of every platform loader: a null handle logs a
   * fatal "Unable to load library" error naming the path and fails.
   */
  function PlatformLoad(path: string, handle: int): (r: LoadOutcome)
    ensures r.ok <==> handle != 0
    ensures r.ok <==> r.fatal.None?
    ensures !r.ok ==> r.fatal == Some(UnableToLoad(path))
  {
    if handle == 0 then LoadOutcome(false, Some(UnableToLoad(path))) else LoadOutcome(true, None)
  }

  /** `DllLoader.Load(dllName, logger, mod)`: build the path, then call the platform loader. */
  function LoadLibrary(os: OS, folder: string, name: string, handleOf: (LoaderKind, string) -> int): (r: LoadOutcome)
    ensures r.ok <==> Handle(os, folder, name, handleOf) != 0
    ensures !r.ok ==> r.fatal == Some(UnableToLoad(LibraryPath(folder, os, name)))
  {
    var path := LibraryPath(folder, os, name);
    PlatformLoad(path, handleOf(LoaderFor(os), path))
  }

  /** The handle the OS's loader returns for a library. */
  function Handle(os: OS, folder: string, name: string, handleOf: (LoaderKind, string) -> int): int {
    handleOf(LoaderFor(os), LibraryPath(folder, os, name))
  }

  /** The bundled native libraries (a HashSet in the source, so enumerated in an unspecified order). */
  const NativeLibraries: set<string> := {"cimgui", "cimguizmo", "cimnodes", "cimplot"}

  /**
   * `NativesLoader.Load`: try each library in the set's enumeration order
   * `order` and return false at the first that fails. The result does not
   * depend on the order: it is true exactly when every library loads.
   */
  method LoadAll(os: OS, folder: string, order: seq<string>, handleOf: (LoaderKind, string) -> int)
    returns (ok: bool, attempted: seq<string>, log: seq<string>)
    requires forall lib :: lib in order <==> lib in NativeLibraries
    ensures ok <==> forall lib :: lib in NativeLibraries ==> Handle(os, folder, lib, handleOf) != 0
    ensures attempted <= order
    ensures ok ==> attempted == order && log == []
    ensures !ok ==>
      && |attempted| > 0
      && Handle(os, folder, attempted[|attempted| - 1], handleOf) == 0
      && log == [UnableToLoad(LibraryPath(folder, os, attempted[|attempted| - 1]))]
    ensures forall i :: 0 <= i < |attempted| - 1 ==> Handle(os, folder, attempted[i], handleOf) != 0
  {
    attempted := [];
    log := [];
    var i := 0;
    while i < |order|
      invariant 0 <= i <= |order|
      invariant attempted == order[..i]
      invariant forall j :: 0 <= j < i ==> Handle(os, folder, order[j], handleOf) != 0
    {
      var outcome := LoadLibrary(os, folder, order[i], handleOf);
      attempted := attempted + [order[i]];
      if !outcome.ok {
        log := [outcome.fatal.value];
        ok := false;
        assert order[i] in NativeLibraries;
        return;
      }
      i := i + 1;
    }
    ok := true;
    assert attempted == order;
    forall lib | lib in NativeLibraries
      ensures Handle(os, folder, lib, handleOf) != 0
    {
      var j :| 0 <= j < |order| && order[j] == lib;
    }
  }
}
