/**
 * The instance descriptors the script reads, as typed records, and the
 * projection of each record onto its external address and its name.
 *
 * Every field the script reads is a required field of these records, so a
 * missing key cannot occur; what remains of the source's lookups failing is
 * an empty `networkInterfaces` or `accessConfigs` list, whose element 0 does
 * not exist.
 */
module Records {
  import opened Wrappers

  datatype AccessConfig = AccessConfig(natIP: string)

  datatype NetworkInterface = NetworkInterface(accessConfigs: seq<AccessConfig>)

  datatype InstanceRecord = InstanceRecord(networkInterfaces: seq<NetworkInterface>, name: string)

  /** A projected instance: its external address and its name. */
  datatype Instance = Instance(ip: string, name: string)

  /** The record has the path networkInterfaces[0].accessConfigs[0]. */
  predicate HasAddress(r: InstanceRecord)
  {
    |r.networkInterfaces| > 0 && |r.networkInterfaces[0].accessConfigs| > 0
  }

  /** networkInterfaces[0].accessConfigs[0].natIP of a record that has it. */
  function NatIP(r: InstanceRecord): string
    requires HasAddress(r)
  {
    r.networkInterfaces[0].accessConfigs[0].natIP
  }

  /** The projection of one record; it fails on a record without an address. */
  function ProjectRecord(r: InstanceRecord): (p: Option<Instance>)
    ensures p.Some? <==> HasAddress(r)
    ensures p.Some? ==> p.value.ip == NatIP(r) && p.value.name == r.name
  {
    if HasAddress(r) then Some(Instance(NatIP(r), r.name)) else None
  }

  /**
   * The list comprehension over all records, in order. The first record
   * without an address stops it, and its index is the error.
   */
  function Project(input: seq<InstanceRecord>): (r: Result<seq<Instance>, nat>)
    ensures r.Success? <==> forall k :: 0 <= k < |input| ==> HasAddress(input[k])
    ensures r.Success? ==> |r.value| == |input|
    ensures r.Success? ==> forall k :: 0 <= k < |input| ==>
              r.value[k] == Instance(NatIP(input[k]), input[k].name)
    ensures r.Failure? ==> r.error < |input| && !HasAddress(input[r.error])
    ensures r.Failure? ==> forall k :: 0 <= k < r.error ==> HasAddress(input[k])
  {
    if input == [] then Success([])
    else
      match ProjectRecord(input[0])
      case None => Failure(0)
      case Some(first) =>
        match Project(input[1..])
        case Failure(k) => Failure(k + 1)
        case Success(rest) => Success([first] + rest)
  }

  /** The addresses of a list of instances, in order. */
  function Ips(instances: seq<Instance>): (ips: seq<string>)
    ensures |ips| == |instances|
    ensures forall k :: 0 <= k < |instances| ==> ips[k] == instances[k].ip
  {
    seq(|instances|, k requires 0 <= k < |instances| => instances[k].ip)
  }

  /**
   * Two inputs whose records agree everywhere except in their names project
   * to the same outcome, up to names: the same failing index, or the same
   * addresses in the same order.
   */
  lemma {:induction false} ProjectIgnoresNames(a: seq<InstanceRecord>, b: seq<InstanceRecord>)
    requires |a| == |b|
    requires forall k :: 0 <= k < |a| ==> a[k].networkInterfaces == b[k].networkInterfaces
    ensures Project(a).Failure? <==> Project(b).Failure?
    ensures Project(a).Failure? ==> Project(a).error == Project(b).error
    ensures Project(a).Success? ==> Ips(Project(a).value) == Ips(Project(b).value)
  {
    if a != [] {
      ProjectIgnoresNames(a[1..], b[1..]);
    }
  }
}
