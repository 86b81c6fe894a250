/**
 * The instance-type catalogue (backend/instancedetails.go). The table's data is
 * not modelled: the catalogue is a parameter, and only the lookup is.
 */
module InstanceDetails {

  /** One catalogue entry; prices are per region, already parsed to numbers. */
  datatype TypeDetails = TypeDetails(
    instanceType: string,
    vcpu: int,
    memoryGB: real,
    pricingHourlyByRegion: map<string, real>)

  /** The zero value Go returns when nothing matches. */
  const ZeroDetails: TypeDetails := TypeDetails("", 0, 0.0, map[])

  datatype Lookup = Lookup(details: TypeDetails, found: bool)

  /** `i` is the first position of the catalogue whose type is `instanceType`. */
  ghost predicate IsFirstMatch(catalogue: seq<TypeDetails>, instanceType: string, i: int)
  {
    && 0 <= i < |catalogue|
    && catalogue[i].instanceType == instanceType
    && forall j :: 0 <= j < i ==> catalogue[j].instanceType != instanceType
  }

  /** getInstanceTypeDetails: a linear scan that stops at the first exact match. */
  function GetInstanceTypeDetails(catalogue: seq<TypeDetails>, instanceType: string): (r: Lookup)
    ensures r.found <==> exists i :: 0 <= i < |catalogue| && catalogue[i].instanceType == instanceType
    ensures r.found ==> exists i :: IsFirstMatch(catalogue, instanceType, i) && r.details == catalogue[i]
    ensures !r.found ==> r.details == ZeroDetails
  {
    if |catalogue| == 0 then
      Lookup(ZeroDetails, false)
    else if catalogue[0].instanceType == instanceType then
      assert IsFirstMatch(catalogue, instanceType, 0);
      Lookup(catalogue[0], true)
    else
      var r := GetInstanceTypeDetails(catalogue[1..], instanceType);
      assert forall i :: 1 <= i < |catalogue| ==> catalogue[i] == catalogue[1..][i - 1];
      assert r.found ==> exists i :: IsFirstMatch(catalogue, instanceType, i) && r.details == catalogue[i] by {
        if r.found {
          var k :| IsFirstMatch(catalogue[1..], instanceType, k) && r.details == catalogue[1..][k];
          assert IsFirstMatch(catalogue, instanceType, k + 1);
        }
      }
      r
  }

  /** Whatever follows the first match, the lookup returns the first match. */
  lemma {:induction false} LookupIsFirstMatch(catalogue: seq<TypeDetails>, instanceType: string, i: int)
    requires IsFirstMatch(catalogue, instanceType, i)
    ensures GetInstanceTypeDetails(catalogue, instanceType) == Lookup(catalogue[i], true)
  {
    var r := GetInstanceTypeDetails(catalogue, instanceType);
    var k :| IsFirstMatch(catalogue, instanceType, k) && r.details == catalogue[k];
    assert k == i;
  }
}
