/** The file system of kernel/fs.c on the log of kernel/log.c. How inodes and bitmap are laid out in their blocks is a
    parameter: any way to read a volume off the home blocks. */
module FsLog {
  import Bio
  import opened LogDisk
  import opened LogShare
  import opened LogState
  import opened Volume

  /** Every block number of every file is a data block in use, of one owner, and the bitmap agrees. */
  ghost predicate Sound(g: Geometry, v: Vol) {
    GoodGeometry(g) && Shaped(g, v) && AllMapped(g, v) && exists owner :: Owned(g, v, owner, {}, {})
  }

  ghost function Sounds(g: Geometry, vol: Bio.Disk -> Vol): (p: Bio.Disk -> bool)
    ensures forall d :: p(d) <==> Sound(g, vol(d))
  {
    d => Sound(g, vol(d))
  }

  ghost predicate ReadsHome(vol: Bio.Disk -> Vol, start: nat) {
    forall d: Bio.Disk, e: Bio.Disk :: SameHome(d, e, start) ==> vol(d) == vol(e)
  }

  /** If each operation, taken as a whole, keeps the volume sound, then whatever crashes come, in operations, in commits
      or in recoveries, every life begins with a sound volume: no block lost by half an operation, and none shared. */
  lemma VolumeSurvives(es: seq<Epoch>, e: Bio.Disk, start: nat, g: Geometry, vol: Bio.Disk -> Vol)
    requires WellFormed(e, start) && ReadsHome(vol, start) && Lives(es, Booted(e, start), start)
    requires SettledLives(es, Booted(e, start), start, Sounds(g, vol)) && Sound(g, vol(Booted(e, start).s.view))
    ensures Begins(es, Booted(e, start), start, Sounds(g, vol))
  {
    hide Sound, Lives, SettledLives, Begins, SameHome;
    BootedOk(e, start);
    StaysConsistent(es, Booted(e, start), start, Sounds(g, vol));
  }
}
