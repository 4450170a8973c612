/** The parts of Node's POSIX `path` module the services use. */
module NodePath {
  import opened JsString

  /** End of the path once trailing slashes are dropped. */
  function ComponentEnd(path: string): nat
    ensures ComponentEnd(path) <= |path|
  {
    RunStart(path, 0, |path|, Slash)
  }

  /** Start of the last path component. */
  function ComponentStart(path: string): (k: nat)
    ensures k <= ComponentEnd(path)
    ensures forall m :: k <= m < ComponentEnd(path) ==> path[m] != '/'
  {
    RunStartAll(path, 0, ComponentEnd(path), NotSlash);
    RunStart(path, 0, ComponentEnd(path), NotSlash)
  }

  /** `path.extname(path)`: from the last '.' of the last component to its end;
      empty when that component has no '.', when its only leading character is
      that '.', or when the component is "..". */
  function ExtName(path: string): (r: string)
    ensures r == [] || (r[0] == '.' && forall i :: 1 <= i < |r| ==> r[i] != '.' && r[i] != '/')
  {
    var end := ComponentEnd(path);
    var start := ComponentStart(path);
    var j := RunStart(path, start, end, NotDot);
    RunStartAll(path, start, end, NotDot);
    if j == start || j - 1 == start || path[start..end] == ".." then []
    else path[j - 1..end]
  }

  /** `path.basename(path, suffix)` for a suffix without '/': the last component,
      without `suffix` when it ends with it and is longer than it. */
  function BaseName(path: string, suffix: string): (r: string)
    ensures path != suffix ==> |r| <= ComponentEnd(path) - ComponentStart(path)
  {
    var base := path[ComponentStart(path)..ComponentEnd(path)];
    if suffix != [] && path == suffix then []
    else if suffix != [] && |base| > |suffix| && base[|base| - |suffix|..] == suffix then
      base[..|base| - |suffix|]
    else base
  }

  /** A name without '/' whose extension is `ext` ends with `ext` and has a
      non-empty stem in front of it, which is what `BaseName` leaves. */
  lemma ExtNameSplit(name: string, ext: string)
    requires '/' !in name
    requires ext != [] && ExtName(name) == ext
    ensures |name| > |ext| && name[|name| - |ext|..] == ext
    ensures BaseName(name, ext) == name[..|name| - |ext|]
  {
    assert ComponentEnd(name) == |name|;
    assert ComponentStart(name) == 0;
    assert name[0..|name|] == name;
  }

  /** `path.join(dir, file)` for a directory and a plain file name; the
      normalisation of "." and ".." segments is not modelled. */
  function Join(dir: string, file: string): string {
    dir + "/" + file
  }
}
