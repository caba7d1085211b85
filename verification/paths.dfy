/** File names of the screenshots the detector keeps in its output directory. */
module Paths {
  import opened Text

  /**
   * POSIX `os.path.join(dir, name)`: an absolute `name` replaces `dir`;
   * otherwise a `/` is put between them unless `dir` is empty or already
   * ends with one.
   */
  function PathJoin(dir: string, name: string): (r: string)
    ensures StartsWith(name, "/") ==> r == name
    ensures !StartsWith(name, "/") ==> exists sep :: sep in {"", "/"} && r == dir + sep + name
    ensures !StartsWith(name, "/") && dir != [] && dir[|dir| - 1] != '/' ==> r == dir + "/" + name
    ensures !StartsWith(name, "/") && (dir == [] || dir[|dir| - 1] == '/') ==> r == dir + name
  {
    if StartsWith(name, "/") then name
    else if dir == [] || dir[|dir| - 1] == '/' then
      assert dir + "" + name == dir + name;
      dir + name
    else dir + "/" + name
  }

  /** `os.path.join(output_dir, f"screenshot_{idx}.png")`. */
  function ScreenshotPath(dir: string, i: nat): string {
    PathJoin(dir, ScreenshotName(i))
  }

  /** A screenshot path lies inside the output directory and ends with the screenshot's name. */
  lemma ScreenshotPathInDir(dir: string, i: nat)
    ensures StartsWith(ScreenshotPath(dir, i), dir)
    ensures var r, name := ScreenshotPath(dir, i), ScreenshotName(i);
      |name| <= |r| && r[|r| - |name|..] == name
  {
    var name := ScreenshotName(i);
    assert name[0] == 's';
    var p := if dir == [] || dir[|dir| - 1] == '/' then dir else dir + "/";
    assert ScreenshotPath(dir, i) == p + name;
    assert (p + name)[..|dir|] == dir;
    assert (p + name)[|p|..] == name;
  }

  function ScreenshotName(i: nat): string {
    "screenshot_" + NatToString(i) + ".png"
  }

  /** Different URL positions get different screenshot files, whatever the directory. */
  lemma ScreenshotPathInjective(dir: string, i: nat, j: nat)
    requires ScreenshotPath(dir, i) == ScreenshotPath(dir, j)
    ensures i == j
  {
    var a, b := ScreenshotName(i), ScreenshotName(j);
    assert a[0] == 's' && b[0] == 's';
    assert !StartsWith(a, "/") && !StartsWith(b, "/");
    var p := if dir == [] || dir[|dir| - 1] == '/' then dir else dir + "/";
    assert ScreenshotPath(dir, i) == p + a;
    assert ScreenshotPath(dir, j) == p + b;
    assert a == (p + a)[|p|..];
    assert b == (p + b)[|p|..];
    var x, y := NatToString(i), NatToString(j);
    assert |x| == |y|;
    assert x == a[11..11 + |x|];
    assert y == b[11..11 + |y|];
    NatToStringInjective(i, j);
  }
}
