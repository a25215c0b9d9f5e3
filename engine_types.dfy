// Engine-level types shared by the plugin's components: optional values,
// byte-sized integers and the network role of a world (ENetMode).

module EngineTypes {

  datatype Option<T> = None | Some(value: T)

  newtype uint8 = x: int | 0 <= x < 256

  /** ENetMode, in the engine's declaration order. */
  datatype NetMode = Standalone | DedicatedServer | ListenServer | Client

  /** The enumerator's numeric value, used where the source compares net modes with `<`. */
  function NetModeValue(m: NetMode): (v: nat)
    ensures v < 4
    ensures v == 3 <==> m == Client
    ensures v == 0 <==> m == Standalone
  {
    match m
    case Standalone => 0
    case DedicatedServer => 1
    case ListenServer => 2
    case Client => 3
  }

  /** An actor or component, identified by an opaque handle. */
  type ObjectId = nat

  /** Every element occurs once. */
  predicate NoDuplicates<T(==)>(s: seq<T>)
  {
    forall i, j :: 0 <= i < j < |s| ==> s[i] != s[j]
  }
}
