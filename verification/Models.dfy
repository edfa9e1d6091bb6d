/** The values that pass between the repositories, the collector and the config builders. */
module Models {

  type uint32 = x: int | 0 <= x < 0x1_0000_0000
  type int32 = x: int | -0x8000_0000 <= x < 0x8000_0000

  const MOD32 := 0x1_0000_0000

  function Wrap(x: int): (r: uint32)
  {
    x % MOD32
  }

  function WrapSigned(x: int): (r: int32)
    ensures (r - x) % 0x1_0000_0000 == 0
  {
    (x + 0x8000_0000) % MOD32 - 0x8000_0000
  }

  /** Both conversions keep the value modulo 2^32. */
  lemma WrapKeepsResidue(x: int)
    ensures (Wrap(x) - x) % 0x1_0000_0000 == 0 == (WrapSigned(x) - x) % 0x1_0000_0000
  {
  }

  lemma WrapAdd(x: int, y: int)
    ensures Wrap(Wrap(x) + y) == Wrap(x + y)
  {
  }

  /** Two counters less than 2^32 apart wrap to the same value only when they are equal. */
  lemma WrapEqual(x: int, y: int)
    requires -MOD32 < x - y < MOD32
    ensures Wrap(x) == Wrap(y) <==> x == y
  {
  }

  lemma WrapOffset(x: int, y: int)
    ensures Wrap(x + y) == Wrap(x) <==> Wrap(y) == 0
  {
  }

  datatype Option<+T> = None | Some(value: T)

  // Go strings are byte strings: each char stands for one byte.
  type RouteGUID = string
  type CAPIProcessGUID = string
  type DiegoProcessGUID = string

  datatype Route = Route(guid: RouteGUID, host: string, path: string, internal: bool, vip: string)

  datatype RouteMapping = RouteMapping(routeGUID: RouteGUID, capiProcessGUID: CAPIProcessGUID, routeWeight: uint32)
  {
    function Key(): string { routeGUID + "-" + capiProcessGUID }
  }

  datatype Backend = Backend(address: string, port: uint32, containerPort: uint32)

  datatype RouteWithBackends = RouteWithBackends(
    hostname: string,
    path: string,
    backends: seq<Backend>,
    capiProcessGUID: CAPIProcessGUID,
    routeWeight: int32,
    internal: bool,
    vip: string)
}
