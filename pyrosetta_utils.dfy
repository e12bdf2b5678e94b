/**
 * The self-contained logic of vScreenML's structure helpers: the neighbour
 * residue finder, the residue-name search, the three-way split of a complex
 * into ligand and receptor, and the move map set up before minimisation.
 * The molecular-modelling engine itself (scoring, minimisation, rigid-body
 * moves, PDB reading and writing) is not modelled.
 */
module PyrosettaUtils {
  import opened Wrappers
  import opened PyStr

  /** An atom position. Integer coordinates stand in for the engine's floats. */
  datatype Coord = Coord(x: int, y: int, z: int)

  /**
   * One residue of a pose: its residue-type name, its PDB chain and number
   * (what the pose's PDB info reports for it) and its atoms' positions.
   */
  datatype Residue = Residue(name: string, chain: string, number: int, atoms: seq<Coord>)

  /** A pose: the engine's structure object, an ordered list of residues numbered from 1. */
  class Pose {
    var residues: seq<Residue>

    constructor (rs: seq<Residue>)
      ensures residues == rs
    {
      residues := rs;
    }

    /** `pose.clone()`: an independent copy. */
    method Clone() returns (copy: Pose)
      ensures fresh(copy) && copy.residues == residues
    {
      copy := new Pose(residues);
    }

    /** `delete_region(pose, start, end)`: removes residues `start..end`, both ends included, counted from 1. */
    method DeleteRegion(start: int, end: int)
      requires 1 <= start <= end <= |residues|
      modifies this
      ensures residues == old(residues[..start - 1] + residues[end..])
    {
      residues := residues[..start - 1] + residues[end..];
    }
  }

  // ---------------------------------------------------------------------------
  // Residue keys: the "chain number" strings
  // ---------------------------------------------------------------------------

  /** `f"{chain} {number}"`, the key that names a residue. */
  function ResidueKey(chain: string, number: int): string
  {
    chain + " " + IntToString(number)
  }

  function KeyOf(r: Residue): string
  {
    ResidueKey(r.chain, r.number)
  }

  /**
   * `resi.split(" ")` followed by `resi[0]` and `int(resi[-1])`: the first
   * field is the chain and the last field the residue number. `None` when the
   * last field is not an integer literal (Python raises ValueError there).
   */
  function ParseResidueKey(s: string): Option<(string, int)>
  {
    var fields := Split(s, ' ');
    match ParseInt(fields[|fields| - 1])
    case None => None
    case Some(n) => Some((fields[0], n))
  }

  /** A key written as `f"{c} {n}"` parses back to `(c, n)` whenever `c` holds no space. */
  lemma ResidueKeyRoundTrip(chain: string, number: int)
    requires ' ' !in chain
    ensures ParseResidueKey(ResidueKey(chain, number)) == Some((chain, number))
  {
    var digits := IntToString(number);
    IntStringRoundTrip(number);
    SplitAfterField(chain, ' ', digits);
    SplitNoSeparator(digits, ' ');
    assert chain + " " + digits == chain + [' '] + digits;
  }

  // ---------------------------------------------------------------------------
  // get_around_residues
  // ---------------------------------------------------------------------------

  /** `n` copies of `key`. */
  function Repeat(key: string, n: nat): (r: seq<string>)
    ensures |r| == n && forall i :: 0 <= i < n ==> r[i] == key
  {
    if n == 0 then [] else Repeat(key, n - 1) + [key]
  }

  /** The per-atom residue keys, in atom order: one copy of a residue's key per atom. */
  function AtomKeys(rs: seq<Residue>): (ids: seq<string>)
  {
    if |rs| == 0 then []
    else AtomKeys(rs[..|rs| - 1]) + Repeat(KeyOf(rs[|rs| - 1]), |rs[|rs| - 1].atoms|)
  }

  /** All atom positions, in the same order as `AtomKeys`. */
  function AtomCoords(rs: seq<Residue>): (coords: seq<Coord>)
    ensures |coords| == |AtomKeys(rs)|
  {
    if |rs| == 0 then [] else AtomCoords(rs[..|rs| - 1]) + rs[|rs| - 1].atoms
  }

  lemma AtomTablesGrow(rs: seq<Residue>, n: nat)
    requires n < |rs|
    ensures AtomKeys(rs[..n + 1]) == AtomKeys(rs[..n]) + Repeat(KeyOf(rs[n]), |rs[n].atoms|)
    ensures AtomCoords(rs[..n + 1]) == AtomCoords(rs[..n]) + rs[n].atoms
  {
    assert rs[..n + 1][..n] == rs[..n];
  }

  /** An atom key occurs exactly when some residue with at least one atom has that key. */
  lemma {:induction false} AtomKeysAreResidueKeys(rs: seq<Residue>, key: string)
    ensures key in AtomKeys(rs) <==> exists k :: 0 <= k < |rs| && |rs[k].atoms| > 0 && KeyOf(rs[k]) == key
  {
    if |rs| > 0 {
      var front, last := rs[..|rs| - 1], rs[|rs| - 1];
      AtomKeysAreResidueKeys(front, key);
      var tail := Repeat(KeyOf(last), |last.atoms|);
      assert AtomKeys(rs) == AtomKeys(front) + tail;
      if key in AtomKeys(rs) {
        if key in AtomKeys(front) {
          var k :| 0 <= k < |front| && |front[k].atoms| > 0 && KeyOf(front[k]) == key;
          assert rs[k] == front[k];
        } else {
          assert key in tail;
          assert |rs[|rs| - 1].atoms| > 0 && KeyOf(rs[|rs| - 1]) == key;
        }
      }
      if exists k :: 0 <= k < |rs| && |rs[k].atoms| > 0 && KeyOf(rs[k]) == key {
        var k :| 0 <= k < |rs| && |rs[k].atoms| > 0 && KeyOf(rs[k]) == key;
        if k < |rs| - 1 {
          assert front[k] == rs[k];
        } else {
          assert tail[0] == key;
        }
      }
    }
  }

  function SquaredDistance(a: Coord, b: Coord): nat
  {
    (a.x - b.x) * (a.x - b.x) + (a.y - b.y) * (a.y - b.y) + (a.z - b.z) * (a.z - b.z)
  }

  /** Every atom is at distance 0 from itself, so within any non-negative radius of itself. */
  lemma WithinSelf(a: Coord, radii: int)
    requires radii >= 0
    ensures Within(a, a, radii)
  {
    assert SquaredDistance(a, a) == 0;
    assert radii * radii >= 0;
  }

  /**
   * `sqrt(|a - b|^2) <= radii`. For a non-negative radius this is the squared
   * comparison; no distance is at most a negative radius.
   */
  predicate Within(a: Coord, b: Coord, radii: int)
  {
    radii >= 0 && SquaredDistance(a, b) <= radii * radii
  }

  /**
   * The keys of every atom within `radii` of some atom whose key is `ligKey`,
   * looking only at ligand atoms among the first `n` atoms.
   */
  ghost function NearLigandUpTo(ids: seq<string>, coords: seq<Coord>, ligKey: string, radii: int, n: nat): set<string>
    requires |ids| == |coords| && n <= |ids|
  {
    set i, j | 0 <= i < n && 0 <= j < |ids| && ids[i] == ligKey && Within(coords[j], coords[i], radii) :: ids[j]
  }

  /** The keys of all atoms within `radii` of atom `i`: the numpy mask `ids[rmsd <= radii]`. */
  function NearAtom(ids: seq<string>, coords: seq<Coord>, i: nat, radii: int): set<string>
    requires |ids| == |coords| && i < |ids|
  {
    set j | 0 <= j < |ids| && Within(coords[j], coords[i], radii) :: ids[j]
  }

  lemma NearLigandStep(ids: seq<string>, coords: seq<Coord>, ligKey: string, radii: int, n: nat)
    requires |ids| == |coords| && n < |ids|
    ensures NearLigandUpTo(ids, coords, ligKey, radii, n + 1)
            == NearLigandUpTo(ids, coords, ligKey, radii, n)
               + (if ids[n] == ligKey then NearAtom(ids, coords, n, radii) else {})
  {
  }

  /** What `get_around_residues` returns for residues `rs`: keys of all atoms near any ligand atom. */
  ghost function AroundResidues(rs: seq<Residue>, radii: int, ligKey: string): set<string>
  {
    NearLigandUpTo(AtomKeys(rs), AtomCoords(rs), ligKey, radii, |AtomKeys(rs)|)
  }

  /**
   * `get_around_residues(pose, radii, lig_chain, lig_num)`: collects the
   * per-atom keys and positions, then for each atom of the ligand residue adds
   * the keys of all atoms within the radius of it.
   */
  method GetAroundResidues(pose: Pose, radii: int, ligChain: string, ligNum: int) returns (target: set<string>)
    ensures target == AroundResidues(pose.residues, radii, ResidueKey(ligChain, ligNum))
    ensures forall key :: key in target ==> key in AtomKeys(pose.residues)
  {
    var ids, coords := CollectAtoms(pose);

    var ligKey := ResidueKey(ligChain, ligNum);
    target := {};
    var i := 0;
    while i < |ids|
      invariant 0 <= i <= |ids|
      invariant target == NearLigandUpTo(ids, coords, ligKey, radii, i)
    {
      NearLigandStep(ids, coords, ligKey, radii, i);
      if ids[i] == ligKey {
        var near := NearAtom(ids, coords, i, radii);
        target := target + near;
      }
      i := i + 1;
    }
  }

  lemma TakeOneMore<T>(s: seq<T>, i: nat)
    requires i < |s|
    ensures s[..i + 1] == s[..i] + [s[i]]
  {
  }

  /** The nested loops of `get_around_residues` that list each atom's residue key and position. */
  method CollectAtoms(pose: Pose) returns (ids: seq<string>, coords: seq<Coord>)
    ensures ids == AtomKeys(pose.residues) && coords == AtomCoords(pose.residues)
  {
    var rs := pose.residues;
    ids, coords := [], [];
    var resi := 0;
    while resi < |rs|
      invariant 0 <= resi <= |rs|
      invariant ids == AtomKeys(rs[..resi]) && coords == AtomCoords(rs[..resi])
    {
      var residue := rs[resi];
      var key := ResidueKey(residue.chain, residue.number);
      ghost var keysBefore, coordsBefore := ids, coords;
      var atomi := 0;
      while atomi < |residue.atoms|
        invariant 0 <= atomi <= |residue.atoms|
        invariant ids == keysBefore + Repeat(key, atomi)
        invariant coords == coordsBefore + residue.atoms[..atomi]
      {
        ids := ids + [key];
        coords := coords + [residue.atoms[atomi]];
        TakeOneMore(residue.atoms, atomi);
        atomi := atomi + 1;
      }
      assert residue.atoms[..atomi] == residue.atoms;
      AtomTablesGrow(rs, resi);
      resi := resi + 1;
    }
    assert rs[..resi] == rs;
  }

  /** With no atom carrying the ligand's key, nothing is near the ligand. */
  lemma AroundWithoutLigandIsEmpty(rs: seq<Residue>, radii: int, ligKey: string)
    requires forall k :: 0 <= k < |rs| && |rs[k].atoms| > 0 ==> KeyOf(rs[k]) != ligKey
    ensures AroundResidues(rs, radii, ligKey) == {}
  {
    AtomKeysAreResidueKeys(rs, ligKey);
  }

  /** Every reported key is the key of a residue of the pose that has atoms. */
  lemma AroundAreResidueKeys(rs: seq<Residue>, radii: int, ligKey: string, key: string)
    requires key in AroundResidues(rs, radii, ligKey)
    ensures exists k :: 0 <= k < |rs| && |rs[k].atoms| > 0 && KeyOf(rs[k]) == key
  {
    AtomKeysAreResidueKeys(rs, key);
  }

  lemma WithinMonotone(a: Coord, b: Coord, r1: int, r2: int)
    requires r1 <= r2 && Within(a, b, r1)
    ensures Within(a, b, r2)
  {
    assert r1 * r1 <= r1 * r2 <= r2 * r2;
  }

  /** A larger radius never drops a residue. */
  lemma AroundMonotone(rs: seq<Residue>, r1: int, r2: int, ligKey: string)
    requires r1 <= r2
    ensures AroundResidues(rs, r1, ligKey) <= AroundResidues(rs, r2, ligKey)
  {
    var ids, coords := AtomKeys(rs), AtomCoords(rs);
    forall key | key in AroundResidues(rs, r1, ligKey)
      ensures key in AroundResidues(rs, r2, ligKey)
    {
      var i, j :| 0 <= i < |ids| && 0 <= j < |ids| && ids[i] == ligKey && Within(coords[j], coords[i], r1) && ids[j] == key;
      WithinMonotone(coords[j], coords[i], r1, r2);
    }
  }

  /** With a non-negative radius, a ligand that has an atom is near itself. */
  lemma AroundContainsLigand(rs: seq<Residue>, radii: int, ligKey: string)
    requires radii >= 0
    requires exists k :: 0 <= k < |rs| && |rs[k].atoms| > 0 && KeyOf(rs[k]) == ligKey
    ensures ligKey in AroundResidues(rs, radii, ligKey)
  {
    var ids, coords := AtomKeys(rs), AtomCoords(rs);
    AtomKeysAreResidueKeys(rs, ligKey);
    var i :| 0 <= i < |ids| && ids[i] == ligKey;
    WithinSelf(coords[i], radii);
    assert ids[i] in NearLigandUpTo(ids, coords, ligKey, radii, |ids|);
  }

  // ---------------------------------------------------------------------------
  // get_residue_index
  // ---------------------------------------------------------------------------

  /** `get_residue_index(pose, name)`: the first residue (from 1) with that name, or `None`. */
  method GetResidueIndex(pose: Pose, name: string) returns (index: Option<nat>)
    ensures index.None? <==> forall k :: 0 <= k < |pose.residues| ==> pose.residues[k].name != name
    ensures index.Some? ==> 1 <= index.value <= |pose.residues| && pose.residues[index.value - 1].name == name
    ensures index.Some? ==> forall k :: 0 <= k < index.value - 1 ==> pose.residues[k].name != name
  {
    var i := 1;
    while i < |pose.residues| + 1
      invariant 1 <= i <= |pose.residues| + 1
      invariant forall k :: 0 <= k < i - 1 ==> pose.residues[k].name != name
    {
      if pose.residues[i - 1].name == name {
        return Some(i);
      }
      i := i + 1;
    }
    return None;
  }

  // ---------------------------------------------------------------------------
  // decompose_pose
  // ---------------------------------------------------------------------------

  /** The residues with position `k` (from 1) left out, the others in their order. */
  function WithoutPosition(rs: seq<Residue>, k: int): (rest: seq<Residue>)
    requires 1 <= k <= |rs|
    ensures |rest| == |rs| - 1
    ensures forall j :: 0 <= j < k - 1 ==> rest[j] == rs[j]
    ensures forall j :: k - 1 <= j < |rest| ==> rest[j] == rs[j + 1]
  {
    rs[..k - 1] + rs[k..]
  }

  /**
   * `decompose_pose(bound, residue_id)`: the ligand is a clone with every other
   * residue deleted (one deletion when the ligand is first or last, two when it
   * is interior); the receptor is a clone with only the ligand deleted.
   */
  method DecomposePose(bound: Pose, residueId: int) returns (ligand: Pose, protein: Pose)
    requires |bound.residues| >= 2 && 1 <= residueId <= |bound.residues|
    ensures fresh(ligand) && fresh(protein) && ligand != protein
    ensures bound.residues == old(bound.residues)
    ensures ligand.residues == [bound.residues[residueId - 1]]
    ensures protein.residues == WithoutPosition(bound.residues, residueId)
  {
    ligand := bound.Clone();
    protein := bound.Clone();
    var size := |bound.residues|;

    if residueId == 1 {
      ligand.DeleteRegion(2, size);
    } else if residueId == size {
      ligand.DeleteRegion(1, size - 1);
    } else {
      ligand.DeleteRegion(residueId + 1, size);
      ligand.DeleteRegion(1, residueId - 1);
    }

    protein.DeleteRegion(residueId, residueId);
  }

  /**
   * The ligand and the receptor partition the complex: together they hold
   * each residue of `bound` exactly as often as `bound` does, and splicing the
   * ligand back in at its position rebuilds `bound`.
   */
  lemma DecompositionPartitions(bound: seq<Residue>, residueId: int)
    requires 1 <= residueId <= |bound|
    ensures multiset(bound) == multiset([bound[residueId - 1]]) + multiset(WithoutPosition(bound, residueId))
    ensures bound == WithoutPosition(bound, residueId)[..residueId - 1] + [bound[residueId - 1]]
                     + WithoutPosition(bound, residueId)[residueId - 1..]
  {
    var k := residueId - 1;
    assert bound == bound[..k] + [bound[k]] + bound[k + 1..];
    var rest := WithoutPosition(bound, residueId);
    assert rest[..k] == bound[..k];
    assert rest[k..] == bound[k + 1..];
    assert multiset(bound) == multiset(bound[..k]) + multiset([bound[k]]) + multiset(bound[k + 1..]);
  }

  // ---------------------------------------------------------------------------
  // minimize_complex: the move map
  // ---------------------------------------------------------------------------

  /**
   * The engine's MoveMap as far as it is used here: a jump flag, default
   * backbone and side-chain flags, and per-residue settings that override them.
   */
  class MoveMap {
    var jump: bool
    var chiDefault: bool
    var bbDefault: bool
    var chiAt: map<int, bool>
    var bbAt: map<int, bool>

    /** A new MoveMap: nothing may move. */
    constructor ()
      ensures !jump && !chiDefault && !bbDefault && chiAt == map[] && bbAt == map[]
    {
      jump, chiDefault, bbDefault := false, false, false;
      chiAt, bbAt := map[], map[];
    }

    /** Whether the side chain of residue `i` may move. */
    function Chi(i: int): bool
      reads this
    {
      if i in chiAt then chiAt[i] else chiDefault
    }

    /** Whether the backbone of residue `i` may move. */
    function Bb(i: int): bool
      reads this
    {
      if i in bbAt then bbAt[i] else bbDefault
    }

    /** `set_jump(setting)`. */
    method SetJump(setting: bool)
      modifies this
      ensures jump == setting
      ensures chiDefault == old(chiDefault) && bbDefault == old(bbDefault)
      ensures chiAt == old(chiAt) && bbAt == old(bbAt)
    {
      jump := setting;
    }

    /** `set_chi(setting)`: the default for every residue. */
    method SetChiAll(setting: bool)
      modifies this
      ensures chiDefault == setting
      ensures jump == old(jump) && bbDefault == old(bbDefault)
      ensures chiAt == old(chiAt) && bbAt == old(bbAt)
    {
      chiDefault := setting;
    }

    /** `set_bb(setting)`: the default for every residue. */
    method SetBbAll(setting: bool)
      modifies this
      ensures bbDefault == setting
      ensures jump == old(jump) && chiDefault == old(chiDefault)
      ensures chiAt == old(chiAt) && bbAt == old(bbAt)
    {
      bbDefault := setting;
    }

    /** `set_chi(seqpos, setting)`: one residue. */
    method SetChi(seqpos: int, setting: bool)
      modifies this
      ensures chiAt == old(chiAt)[seqpos := setting]
      ensures jump == old(jump) && chiDefault == old(chiDefault) && bbDefault == old(bbDefault)
      ensures bbAt == old(bbAt)
    {
      chiAt := chiAt[seqpos := setting];
    }

    /** `set_bb(seqpos, setting)`: one residue. */
    method SetBb(seqpos: int, setting: bool)
      modifies this
      ensures bbAt == old(bbAt)[seqpos := setting]
      ensures jump == old(jump) && chiDefault == old(chiDefault) && bbDefault == old(bbDefault)
      ensures chiAt == old(chiAt)
    {
      bbAt := bbAt[seqpos := setting];
    }
  }

  /** The pose positions `pdb2pose` gives for the first `n` listed residue strings, all of which parse. */
  function ListedPositions(flexible: seq<string>, pdb2pose: (string, int) -> int, n: nat): set<int>
    requires n <= |flexible|
    requires forall k :: 0 <= k < n ==> ParseResidueKey(flexible[k]).Some?
  {
    set k | 0 <= k < n :: pdb2pose(ParseResidueKey(flexible[k]).value.0, ParseResidueKey(flexible[k]).value.1)
  }

  /**
   * The move map of `minimize_complex(pose, flexible_residues)`, with the
   * pose's `pdb2pose` lookup given as a function. The jump is always free; an
   * empty list frees every backbone and side chain; otherwise exactly the
   * looked-up listed residues are free. `unparsable` is the first listed string
   * whose number is not an integer (where Python's `int` raises ValueError).
   */
  method MinimizeMoveMap(flexible: seq<string>, pdb2pose: (string, int) -> int)
    returns (mmap: MoveMap, unparsable: Option<string>)
    ensures fresh(mmap)
    ensures unparsable.None? <==> forall k :: 0 <= k < |flexible| ==> ParseResidueKey(flexible[k]).Some?
    ensures unparsable.Some? ==>
      exists k :: 0 <= k < |flexible| && flexible[k] == unparsable.value && ParseResidueKey(flexible[k]).None?
        && forall j :: 0 <= j < k ==> ParseResidueKey(flexible[j]).Some?
    ensures unparsable.None? ==> mmap.jump
    ensures unparsable.None? && |flexible| == 0 ==> forall i :: mmap.Chi(i) && mmap.Bb(i)
    ensures unparsable.None? && |flexible| > 0 ==>
      forall i :: mmap.Chi(i) == mmap.Bb(i) == (i in ListedPositions(flexible, pdb2pose, |flexible|))
  {
    mmap := new MoveMap();
    mmap.SetJump(true);

    if |flexible| == 0 {
      mmap.SetChiAll(true);
      mmap.SetBbAll(true);
    } else {
      mmap.SetChiAll(false);
      mmap.SetBbAll(false);

      var n := 0;
      while n < |flexible|
        invariant 0 <= n <= |flexible|
        invariant forall k :: 0 <= k < n ==> ParseResidueKey(flexible[k]).Some?
        invariant mmap.jump && !mmap.chiDefault && !mmap.bbDefault
        invariant forall i :: i in mmap.chiAt <==> i in ListedPositions(flexible, pdb2pose, n)
        invariant forall i :: i in mmap.bbAt <==> i in ListedPositions(flexible, pdb2pose, n)
        invariant forall i :: i in mmap.chiAt ==> mmap.chiAt[i]
        invariant forall i :: i in mmap.bbAt ==> mmap.bbAt[i]
      {
        var parsed := ParseResidueKey(flexible[n]);
        if parsed.None? {
          return mmap, Some(flexible[n]);
        }
        var (chain, pdbResi) := parsed.value;
        var poseResi := pdb2pose(chain, pdbResi);
        mmap.SetChi(poseResi, true);
        mmap.SetBb(poseResi, true);
        n := n + 1;
      }
    }
    unparsable := None;
  }
}
