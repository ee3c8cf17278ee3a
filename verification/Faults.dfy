/** Instruction faults, fault models and the context of one injection. */
module Faults {
  import opened Processor

  type Bytes4 = b: seq<Byte> | |b| == 4 witness [0, 0, 0, 0]

  /** `model` identifies the fault model; `manipulated` is empty until the model is applied. */
  datatype Fault = Fault(model: nat, time: nat, iteration: nat, address: Word, size: nat,
                         original: seq<Byte>, manipulated: seq<Byte>)

  type Chain = seq<Fault>

  /** The three callbacks of an instruction fault model.  The iteration counter sees the fault before it
      is numbered, and no callback reads the manipulated bytes of an earlier application. */
  datatype Model = Model(permanent: bool, iterations: Fault -> nat, isApplicable: Fault -> bool,
                         inject: Fault -> Bytes4)

  /** One element of the injection plan: `plan` lists, per level, the model to inject.  `sites` are the
      statically known instructions, `decodes` the decoder's verdict used for permanent faults, `redundant`
      the test against known exploitable chains. */
  datatype Campaign = Campaign(
    m: Machine,
    ignore: Ignore,
    library: seq<Model>,
    plan: seq<nat>,
    sites: seq<Site>,
    decodes: (Cpu, Word, seq<Byte>) -> bool,
    redundant: Chain -> bool)
  {
    predicate Valid() {
      && (forall i | 0 <= i < |plan| :: plan[i] < |library|)
      && (forall x | x in sites :: x.size in {2, 4})
      && (forall i, j | 0 <= i < j < |plan| :: library[plan[j]].permanent ==> library[plan[i]].permanent)
    }

    function Active(level: nat): Model
      requires Valid() && level < |plan|
    {
      library[plan[level]]
    }
  }

  predicate InFlash(m: Machine, code: seq<Byte>, site: Site) {
    Contains(m.flashOffset, |code|, site.address, site.size)
  }

  function Patched(m: Machine, code: seq<Byte>, address: Word, bytes: seq<Byte>): (r: seq<Byte>)
    requires Contains(m.flashOffset, |code|, address, |bytes|)
    ensures |r| == |code|
  {
    Splice(code, address - m.flashOffset, bytes)
  }

  function BytesAt(m: Machine, code: seq<Byte>, site: Site): (r: seq<Byte>)
    requires InFlash(m, code, site)
    ensures |r| == site.size
  {
    code[site.address - m.flashOffset..site.address - m.flashOffset + site.size]
  }

  function Applied(model: Model, f: Fault): Fault
    requires f.size <= 4
  {
    f.(manipulated := model.inject(f.(manipulated := []))[..f.size])
  }

  lemma {:induction false} PatchUndone(m: Machine, code: seq<Byte>, site: Site, bytes: seq<Byte>)
    requires InFlash(m, code, site) && |bytes| == site.size
    ensures Patched(m, Patched(m, code, site.address, bytes), site.address, BytesAt(m, code, site)) == code
  {
  }
}
