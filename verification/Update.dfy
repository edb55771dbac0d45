/** The two-binary update (cmd/picode-desktop/update.go), from the downloads on,
    over a disk on which any step may fail. */
module Update {
  datatype Binary = Tool | Shell

  // The program at its own path, the one set aside beside it (.old), and the
  // download waiting to be swapped in (.new).
  datatype Path = Own(b: Binary) | Aside(b: Binary) | Next(b: Binary)

  // Release is the bytes the release's checksums name; Junk is anything else.
  datatype Content = Original(b: Binary) | Release(b: Binary) | Junk

  type Disk = map<Path, Content>

  // An original can still be found: at its own path, or set aside.
  ghost predicate Survives(d: Disk, b: Binary) {
    (Own(b) in d && d[Own(b)] == Original(b)) || (Aside(b) in d && d[Aside(b)] == Original(b))
  }

  // What is at a program's own path is the original or the verified release.
  ghost predicate Genuine(d: Disk, b: Binary) {
    Own(b) in d ==> d[Own(b)] == Original(b) || d[Own(b)] == Release(b)
  }

  ghost predicate Safe(d: Disk, installed: set<Binary>) {
    forall b <- installed :: Survives(d, b) && Genuine(d, b)
  }

  ghost predicate Holds(d: Disk, p: Path, c: Content) {
    p in d && d[p] == c
  }

  function Paths(b: Binary): set<Path> {
    {Own(b), Aside(b), Next(b)}
  }

  // Two disks agree everywhere else.
  ghost predicate SameBut(d: Disk, e: Disk, touched: set<Path>) {
    forall p: Path | p !in touched :: (p in d <==> p in e) && (p in d ==> d[p] == e[p])
  }

  ghost predicate InPlace(d: Disk, b: Binary) {
    Holds(d, Own(b), Original(b))
  }

  ghost predicate Swapped(d: Disk, b: Binary) {
    Holds(d, Own(b), Release(b)) && Holds(d, Aside(b), Original(b))
  }

  class Updater {
    var disk: Disk
    // Every disk there has been, and whether every rename of a rollback landed.
    ghost var past: seq<Disk>
    ghost var rolledBack: bool
    const installed: set<Binary>

    ghost predicate Valid()
      reads this
    {
      Safe(disk, installed) && forall d <- past :: Safe(d, installed)
    }

    constructor (start: Disk, binaries: set<Binary>)
      requires forall b <- binaries :: InPlace(start, b)
      ensures Valid() && disk == start && installed == binaries && rolledBack
    {
      disk, past, rolledBack, installed := start, [], true, binaries;
    }

    // Fetches an asset: all of it, part of it or something else, or nothing.
    method Download(b: Binary) returns (ok: bool)
      requires Valid()
      modifies `disk, `past
      ensures Valid() && SameBut(disk, old(disk), {Next(b)})
      ensures ok ==> Next(b) in disk
    {
      past := past + [disk];
      if {
        case true => ok := false;
        case true => disk, ok := disk[Next(b) := Junk], *;
        case true => disk, ok := disk[Next(b) := Release(b)], *;
      }
    }

    method Verify(b: Binary) returns (ok: bool)
      ensures ok <==> Holds(disk, Next(b), Release(b))
    {
      ok := Next(b) in disk && disk[Next(b)] == Release(b);
    }

    method Remove(p: Path)
      requires Valid() && (p.Next? || Safe(disk - {p}, installed))
      modifies `disk, `past
      ensures Valid() && (disk == old(disk) || disk == old(disk) - {p})
    {
      past := past + [disk];
      if * {
        disk := disk - {p};
      }
    }

    // A rename replaces what was at the target.
    method Rename(from: Path, to: Path) returns (ok: bool)
      requires Valid() && from != to
      requires from in disk ==> Safe((disk - {from})[to := disk[from]], installed)
      modifies `disk, `past
      ensures Valid()
      ensures if ok then from in old(disk) && disk == (old(disk) - {from})[to := old(disk)[from]] else disk == old(disk)
    {
      past := past + [disk];
      ok := false;
      if from in disk {
        if * {
          disk, ok := (disk - {from})[to := disk[from]], true;
        }
      }
    }

    // Moves the download into the program's place, the original set aside first.
    method SwapExe(b: Binary) returns (ok: bool)
      requires Valid() && rolledBack && b in installed
      requires InPlace(disk, b) && Holds(disk, Next(b), Release(b))
      modifies `disk, `past, `rolledBack
      ensures Valid() && SameBut(disk, old(disk), Paths(b))
      ensures ok ==> rolledBack && Swapped(disk, b)
      ensures !ok ==> (rolledBack <==> InPlace(disk, b))
    {
      Remove(Aside(b));
      ok := Rename(Own(b), Aside(b));
      if !ok {
        Remove(Next(b));
        return;
      }
      ok := Rename(Next(b), Own(b));
      if !ok {
        // Put it back rather than leave the machine with no program at all.
        var back := Rename(Aside(b), Own(b));
        rolledBack := back;
        Remove(Next(b));
      }
    }

    // Undoes a swap: the new file goes, the original comes back.
    method UnswapExe(b: Binary)
      requires Valid() && b in installed
      requires Swapped(disk, b)
      modifies `disk, `past, `rolledBack
      ensures Valid() && SameBut(disk, old(disk), Paths(b))
      ensures rolledBack <==> old(rolledBack) && InPlace(disk, b)
    {
      Remove(Own(b));
      var back := Rename(Aside(b), Own(b));
      rolledBack := rolledBack && back;
    }

    /** Both programs are the verified release, or the update failed; a failed one
        leaves both originals in place exactly when the renames of its rollback
        landed. On every disk on the way, whatever fails, each original survives
        at its own path or set aside, and nothing unverified is ever at either
        path (Valid). Without a shell the tool updates alone. */
    method RunUpdate() returns (ok: bool)
      requires Valid() && rolledBack && Tool in installed
      requires InPlace(disk, Tool) && (Shell in installed ==> InPlace(disk, Shell))
      modifies `disk, `past, `rolledBack
      ensures Valid()
      ensures ok ==> Swapped(disk, Tool) && (Shell in installed ==> Swapped(disk, Shell))
      ensures !ok ==> (rolledBack <==> InPlace(disk, Tool) && (Shell in installed ==> InPlace(disk, Shell)))
      ensures Shell !in installed ==> SameBut(disk, old(disk), Paths(Tool))
    {
      hide Safe, Survives, Genuine;
      var shell := Shell in installed;
      ok := Download(Tool);
      if !ok { return; }
      ok := Verify(Tool);
      if !ok {
        Remove(Next(Tool));
        return;
      }
      if shell {
        ok := Download(Shell);
        if !ok {
          Remove(Next(Tool));
          return;
        }
        ok := Verify(Shell);
        if !ok {
          Remove(Next(Tool));
          Remove(Next(Shell));
          return;
        }
      }
      ok := SwapExe(Tool);
      if !ok {
        if shell { Remove(Next(Shell)); }
        return;
      }
      if shell {
        ok := SwapExe(Shell);
        if !ok {
          UnswapExe(Tool);
        }
      }
    }
  }
}
