/** gr_autopilot/flowgraph: skills, specifications and their validation (skills_registry.py,
    spec.py, builder.py). */
module Flowgraph {

  import opened Basics

  datatype Modulation = Bpsk | Qpsk | Psk8 | Qam16 | Qam32 | Qam64 | Qam256

  /** The registered skills; any other name is unknown to the registry. */
  datatype Skill =
    | Mod(m: Modulation)
    | PulseShape
    | MatchedFilter
    | SymbolSync
    | Costas
    | Agc
    | Demod(m: Modulation)
    | Channel
    | Other(name: string)

  datatype Dtype = Bits | Complex

  function InType(s: Skill): Dtype { if s.Mod? then Bits else Complex }

  function OutType(s: Skill): Dtype { if s.Demod? then Bits else Complex }

  /** The parts of a specification that validation, execution and export read. An unknown modulation
      name is None; an absent setting is None. */
  datatype Spec = Spec(id: string, modulation: Option<Modulation>, tx: seq<Skill>, rx: seq<Skill>,
                       sps: Option<int>, rolloff: Option<real>, loopBw: Option<real>)

  const DEFAULT_SPS: int := 4
  const DEFAULT_ROLLOFF: real := 0.35

  function SpsOf(spec: Spec): int { if spec.sps.Some? then spec.sps.value else DEFAULT_SPS }
  function RolloffOf(spec: Spec): real { if spec.rolloff.Some? then spec.rolloff.value else DEFAULT_ROLLOFF }

  // ---- validation --------------------------------------------------------------------

  datatype Error =
    | EmptyChain
    | UnknownSkill(at: nat)
    | NotForTheAgent(at: nat)
    | TypeMismatch(at: nat)
    | WrongEnd
    | UnknownModulation
    | NoModulator
    | ModulatorDisagrees
    | NoDemodulator
    | DemodulatorDisagrees
    | BadSps
    | BadRolloff

  /** What reaches position i of a chain fed with `first`. */
  function Reaching(chain: seq<Skill>, first: Dtype, i: nat): Dtype
    requires i <= |chain|
  {
    if i == 0 then first else OutType(chain[i - 1])
  }

  predicate PlaceOk(chain: seq<Skill>, first: Dtype, i: nat)
    requires i < |chain|
  {
    !chain[i].Other? && !chain[i].Channel? && InType(chain[i]) == Reaching(chain, first, i)
  }

  /** A chain of known agent skills whose item types join up from `first` to `last`. */
  predicate ChainOk(chain: seq<Skill>, first: Dtype, last: Dtype) {
    chain != [] && (forall i :: 0 <= i < |chain| ==> PlaceOk(chain, first, i))
    && Reaching(chain, first, |chain|) == last
  }

  method ValidateChain(chain: seq<Skill>, first: Dtype, last: Dtype) returns (errors: seq<Error>)
    ensures errors == [] <==> ChainOk(chain, first, last)
  {
    errors := [];
    if chain == [] { return [EmptyChain]; }
    var cur := first;
    for i := 0 to |chain|
      invariant cur == Reaching(chain, first, i)
      invariant errors == [] <==> forall j :: 0 <= j < i ==> PlaceOk(chain, first, j)
    {
      var sk := chain[i];
      ghost var before := errors;
      if sk.Other? {
        assert !PlaceOk(chain, first, i);
        return errors + [UnknownSkill(i)];
      }
      if sk.Channel? { errors := errors + [NotForTheAgent(i)]; }
      if InType(sk) != cur { errors := errors + [TypeMismatch(i)]; }
      assert errors == [] <==> before == [] && PlaceOk(chain, first, i);
      cur := OutType(sk);
    }
    if cur != last { errors := errors + [WrongEnd]; }
  }

  function FirstMod(chain: seq<Skill>): Option<Modulation> {
    if chain == [] then None else if chain[0].Mod? then Some(chain[0].m) else FirstMod(chain[1..])
  }

  function LastDemod(chain: seq<Skill>): Option<Modulation> {
    if chain == [] then None
    else if chain[|chain| - 1].Demod? then Some(chain[|chain| - 1].m)
    else LastDemod(chain[..|chain| - 1])
  }

  /** A specification the builder accepts, read off its chains: a transmit chain that starts with the
      declared modulator, a receive chain that ends with its demodulator, settings in range. */
  predicate Valid(spec: Spec) {
    && spec.modulation.Some?
    && ChainOk(spec.tx, Bits, Complex) && spec.tx[0] == Mod(spec.modulation.value)
    && ChainOk(spec.rx, Complex, Bits) && spec.rx[|spec.rx| - 1] == Demod(spec.modulation.value)
    && 1 <= SpsOf(spec) <= 16 && 0.0 <= RolloffOf(spec) <= 1.0
  }

  /** A well-typed transmit chain opens with a modulator, a receive chain closes with a demodulator. */
  lemma EndsOfChains(chain: seq<Skill>)
    ensures ChainOk(chain, Bits, Complex) ==> chain[0].Mod? && FirstMod(chain) == Some(chain[0].m)
    ensures ChainOk(chain, Complex, Bits) ==>
              chain[|chain| - 1].Demod? && LastDemod(chain) == Some(chain[|chain| - 1].m)
  {
    if ChainOk(chain, Bits, Complex) { assert PlaceOk(chain, Bits, 0); }
  }

  method ValidateSpec(spec: Spec) returns (errors: seq<Error>)
    ensures errors == [] <==> Valid(spec)
  {
    hide ChainOk, FirstMod, LastDemod;
    errors := [];
    if spec.modulation.None? { errors := errors + [UnknownModulation]; }
    var txErrors := ValidateChain(spec.tx, Bits, Complex);
    var rxErrors := ValidateChain(spec.rx, Complex, Bits);
    EndsOfChains(spec.tx);
    EndsOfChains(spec.rx);
    NonEmptyChain(spec.tx, Bits, Complex);
    NonEmptyChain(spec.rx, Complex, Bits);
    errors := errors + txErrors + rxErrors;
    var mod, demod := FirstMod(spec.tx), LastDemod(spec.rx);
    if mod.None? { errors := errors + [NoModulator]; }
    else if mod != spec.modulation { errors := errors + [ModulatorDisagrees]; }
    if demod.None? { errors := errors + [NoDemodulator]; }
    else if demod != spec.modulation { errors := errors + [DemodulatorDisagrees]; }
    if !(1 <= SpsOf(spec) <= 16) { errors := errors + [BadSps]; }
    if !(0.0 <= RolloffOf(spec) <= 1.0) { errors := errors + [BadRolloff]; }
  }

  lemma NonEmptyChain(chain: seq<Skill>, first: Dtype, last: Dtype)
    ensures ChainOk(chain, first, last) ==> chain != []
  {
  }

  // ---- the shape a graph can be drawn in -----------------------------------------------

  predicate NoDemod(chain: seq<Skill>) { forall i :: 0 <= i < |chain| ==> !chain[i].Demod? }

  /** One modulator then complex stages; complex stages then one demodulator. */
  predicate Shaped(spec: Spec) {
    NoDemod(spec.tx) && (spec.rx != [] ==> NoDemod(spec.rx[..|spec.rx| - 1]))
  }

  /** In a chain without demodulators nothing after the first place can consume bits. */
  lemma ModOnlyFirst(chain: seq<Skill>, first: Dtype, i: nat)
    requires i < |chain| && PlaceOk(chain, first, i) && NoDemod(chain[..i])
    ensures chain[i].Mod? ==> i == 0 && first == Bits
  {
    if i > 0 { assert chain[i - 1] == chain[..i][i - 1]; }
  }
}
