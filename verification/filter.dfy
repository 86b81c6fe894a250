/**
 * The admission rules of backend/aws.go (checkInstanceType, validateEnvName, the
 * filter at the head of addInstance) and the per-record normalisation that
 * pollForASG and pollForEC2 apply to what the provider describes. Provider
 * records are reduced to what the code reads from them; the tag list is kept
 * in the order the provider returned it.
 */
module Filter {
  import opened Wrappers
  import opened Types
  import opened InstanceDetails

  /** The scan shared by both ignore-list checks: false as soon as `s` is listed. */
  function NotListed(list: seq<string>, s: string): (ok: bool)
    ensures ok <==> s !in list
  {
    if |list| == 0 then true
    else if list[0] == s then false
    else NotListed(list[1..], s)
  }

  /** checkInstanceType: true when the type is not on the ignore list. */
  function CheckInstanceType(instanceTypeIgnore: seq<string>, instanceType: string): (ok: bool)
    ensures ok <==> instanceType !in instanceTypeIgnore
  {
    NotListed(instanceTypeIgnore, instanceType)
  }

  /** validateEnvName: false for the empty name and for ignored names. */
  function ValidateEnvName(envNameIgnore: seq<string>, envName: string): (ok: bool)
    ensures ok <==> envName != "" && envName !in envNameIgnore
  {
    if envName == "" then false else NotListed(envNameIgnore, envName)
  }

  /** The filter at the head of addInstance: ASG rows always pass. */
  predicate Admits(cfg: Config, vm: VM)
  {
    vm.isASG || (CheckInstanceType(cfg.instanceTypeIgnore, vm.instanceType) && vm.state != "terminated")
  }

  // ---------------------------------------------------------------- tags

  datatype Tag = Tag(key: string, value: string)

  const PowerToggleEnabledKey: string := "power-toggle-enabled"
  const ASGGroupNameKey: string := "aws:autoscaling:groupName"
  const NameKey: string := "Name"

  predicate HasKey(tags: seq<Tag>, key: string)
  {
    exists i :: 0 <= i < |tags| && tags[i].key == key
  }

  predicate HasTag(tags: seq<Tag>, key: string, value: string)
  {
    exists i :: 0 <= i < |tags| && tags[i].key == key && tags[i].value == value
  }

  /** How many tags carry exactly this key and value. */
  function CountTag(tags: seq<Tag>, key: string, value: string): (n: nat)
    ensures n > 0 <==> HasTag(tags, key, value)
  {
    if |tags| == 0 then 0
    else
      var last := tags[|tags| - 1];
      assert forall i :: 0 <= i < |tags| - 1 ==> tags[..|tags| - 1][i] == tags[i];
      CountTag(tags[..|tags| - 1], key, value) + (if last.key == key && last.value == value then 1 else 0)
  }

  /** The value of the last tag with this key and a non-empty value; "" if there is none. */
  function LastNonEmptyValue(tags: seq<Tag>, key: string): string
  {
    if |tags| == 0 then ""
    else if tags[|tags| - 1].key == key && tags[|tags| - 1].value != "" then tags[|tags| - 1].value
    else LastNonEmptyValue(tags[..|tags| - 1], key)
  }

  /** The value of the last tag with this key; "" if there is none. */
  function LastValue(tags: seq<Tag>, key: string): string
  {
    if |tags| == 0 then ""
    else if tags[|tags| - 1].key == key then tags[|tags| - 1].value
    else LastValue(tags[..|tags| - 1], key)
  }

  // ---------------------------------------------------------------- ASG records

  /** What pollForASG reads of one auto-scaling group. */
  datatype RawASG = RawASG(
    name: string,
    memberTypes: seq<string>,   // the instance type of each member instance
    minSize: int,
    maxSize: int,
    desiredCapacity: int,
    tags: seq<Tag>)

  /** Sum of the catalogue vCPUs of the members whose type is in the catalogue. */
  function MembersVCPU(catalogue: seq<TypeDetails>, members: seq<string>): int
  {
    if |members| == 0 then 0
    else
      var d := GetInstanceTypeDetails(catalogue, members[|members| - 1]);
      MembersVCPU(catalogue, members[..|members| - 1]) + (if d.found then d.details.vcpu else 0)
  }

  function MembersMemory(catalogue: seq<TypeDetails>, members: seq<string>): real
  {
    if |members| == 0 then 0.0
    else
      var d := GetInstanceTypeDetails(catalogue, members[|members| - 1]);
      MembersMemory(catalogue, members[..|members| - 1]) + (if d.found then d.details.memoryGB else 0.0)
  }

  /** The hourly price of the last member whose type has a price in `region`, if any. */
  function LastMemberPrice(catalogue: seq<TypeDetails>, members: seq<string>, region: string): Option<real>
  {
    if |members| == 0 then None
    else
      var d := GetInstanceTypeDetails(catalogue, members[|members| - 1]);
      if d.found && region in d.details.pricingHourlyByRegion then Some(d.details.pricingHourlyByRegion[region])
      else LastMemberPrice(catalogue, members[..|members| - 1], region)
  }

  /** The inner member loop of pollForASG: sum memory and vCPU, overwrite the price. */
  function EnrichFromMembers(vm: VM, catalogue: seq<TypeDetails>, members: seq<string>, region: string): (r: VM)
    ensures r == vm.(vcpu := r.vcpu, memoryGB := r.memoryGB, pricingHourly := r.pricingHourly)
    ensures r.vcpu == vm.vcpu + MembersVCPU(catalogue, members)
    ensures r.memoryGB == vm.memoryGB + MembersMemory(catalogue, members)
    ensures r.pricingHourly == match LastMemberPrice(catalogue, members, region)
                               case Some(p) => p
                               case None => vm.pricingHourly
  {
    if |members| == 0 then vm
    else
      var acc := EnrichFromMembers(vm, catalogue, members[..|members| - 1], region);
      var d := GetInstanceTypeDetails(catalogue, members[|members| - 1]);
      if d.found then
        acc.(memoryGB := acc.memoryGB + d.details.memoryGB,
             vcpu := acc.vcpu + d.details.vcpu,
             pricingHourly := if region in d.details.pricingHourlyByRegion
                              then d.details.pricingHourlyByRegion[region] else acc.pricingHourly)
      else acc
  }

  /** The row pollForASG starts from, before any tag is read. */
  function ASGBase(raw: RawASG, region: string): VM
  {
    VM("", ASGLabel, ASGLabel, raw.name, "", "", region, 0, 0.0, 0.0,
       true, |raw.memberTypes|, raw.minSize, raw.maxSize, raw.desiredCapacity)
  }

  /** True when the group has members and a positive desired capacity. */
  predicate ASGHasCapacity(raw: RawASG)
  {
    |raw.memberTypes| > 0 && raw.desiredCapacity > 0
  }

  /** n copies of x added up: each power-toggle-enabled tag adds the members' memory once more. */
  function Repeated(n: nat, x: real): real
  {
    if n == 0 then 0.0 else Repeated(n - 1, x) + x
  }

  datatype ASGScan = ASGScan(vm: VM, valid: bool)

  /** One iteration of the tag loop of pollForASG. */
  function ASGTagStep(acc: ASGScan, tag: Tag, raw: RawASG, region: string,
                      catalogue: seq<TypeDetails>, environmentTagKey: string): ASGScan
  {
    var afterFlag :=
      if tag.key == PowerToggleEnabledKey && tag.value == "true" then
        ASGScan(if ASGHasCapacity(raw)
                then EnrichFromMembers(acc.vm.(state := "running"), catalogue, raw.memberTypes, region)
                else acc.vm.(state := "stopped"),
                true)
      else acc;
    if tag.key == environmentTagKey && tag.value != ""
    then afterFlag.(vm := afterFlag.vm.(environment := tag.value))
    else afterFlag
  }

  /** The tag loop of pollForASG over the first |tags| tags (in provider order). */
  function ScanASGTags(tags: seq<Tag>, raw: RawASG, region: string,
                       catalogue: seq<TypeDetails>, environmentTagKey: string): (r: ASGScan)
    ensures r.valid <==> HasTag(tags, PowerToggleEnabledKey, "true")
    ensures r.vm.environment == LastNonEmptyValue(tags, environmentTagKey)
    ensures r.vm.state == if !HasTag(tags, PowerToggleEnabledKey, "true") then ""
                          else if ASGHasCapacity(raw) then "running" else "stopped"
    ensures r.vm == ASGBase(raw, region).(state := r.vm.state, environment := r.vm.environment,
                                           vcpu := r.vm.vcpu, memoryGB := r.vm.memoryGB,
                                           pricingHourly := r.vm.pricingHourly)
  {
    if |tags| == 0 then ASGScan(ASGBase(raw, region), false)
    else
      var acc := ScanASGTags(tags[..|tags| - 1], raw, region, catalogue, environmentTagKey);
      HasTagSnoc(tags, PowerToggleEnabledKey, "true");
      ASGTagStepFacts(acc, tags[|tags| - 1], raw, region, catalogue, environmentTagKey);
      ASGTagStep(acc, tags[|tags| - 1], raw, region, catalogue, environmentTagKey)
  }

  /**
   * The vCPU the tag loop gives a group: with capacity, each power-toggle-enabled
   * tag adds the members' vCPU once more; without, nothing.
   */
  lemma {:induction false} ScanASGVCPU(tags: seq<Tag>, raw: RawASG, region: string,
                                       catalogue: seq<TypeDetails>, environmentTagKey: string)
    ensures ScanASGTags(tags, raw, region, catalogue, environmentTagKey).vm.vcpu
            == if ASGHasCapacity(raw)
               then CountTag(tags, PowerToggleEnabledKey, "true") * MembersVCPU(catalogue, raw.memberTypes)
               else 0
  {
    if |tags| > 0 {
      var prefix := tags[..|tags| - 1];
      var tag := tags[|tags| - 1];
      ScanASGVCPU(prefix, raw, region, catalogue, environmentTagKey);
      var acc := ScanASGTags(prefix, raw, region, catalogue, environmentTagKey);
      ASGTagStepFacts(acc, tag, raw, region, catalogue, environmentTagKey);
      var before := acc.vm.vcpu;
      var after := ScanASGTags(tags, raw, region, catalogue, environmentTagKey).vm.vcpu;
      var c := CountTag(prefix, PowerToggleEnabledKey, "true");
      var m := MembersVCPU(catalogue, raw.memberTypes);
      if tag.key == PowerToggleEnabledKey && tag.value == "true" {
        assert CountTag(tags, PowerToggleEnabledKey, "true") == c + 1;
        assert after == if ASGHasCapacity(raw) then before + m else before;
        MulSucc(c, m);
      } else {
        assert CountTag(tags, PowerToggleEnabledKey, "true") == c;
        assert after == before;
      }
    }
  }

  lemma MulSucc(c: int, m: int)
    ensures (c + 1) * m == c * m + m
  {
  }

  /**
   * The memory the tag loop gives a group: with capacity, each power-toggle-enabled
   * tag adds the members' memory once more; without, nothing.
   */
  lemma {:induction false} ScanASGMemory(tags: seq<Tag>, raw: RawASG, region: string,
                                         catalogue: seq<TypeDetails>, environmentTagKey: string)
    ensures ScanASGTags(tags, raw, region, catalogue, environmentTagKey).vm.memoryGB
            == if ASGHasCapacity(raw)
               then Repeated(CountTag(tags, PowerToggleEnabledKey, "true"), MembersMemory(catalogue, raw.memberTypes))
               else 0.0
  {
    if |tags| > 0 {
      var prefix := tags[..|tags| - 1];
      var tag := tags[|tags| - 1];
      ScanASGMemory(prefix, raw, region, catalogue, environmentTagKey);
      ASGTagStepFacts(ScanASGTags(prefix, raw, region, catalogue, environmentTagKey), tag, raw, region,
                      catalogue, environmentTagKey);
      assert CountTag(tags, PowerToggleEnabledKey, "true")
             == CountTag(prefix, PowerToggleEnabledKey, "true")
                + (if tag.key == PowerToggleEnabledKey && tag.value == "true" then 1 else 0);
    }
  }

  /**
   * The price the tag loop gives a group: with capacity and the enabling tag, the
   * price of the last priced member; otherwise none.
   */
  lemma {:induction false} ScanASGPrice(tags: seq<Tag>, raw: RawASG, region: string,
                                        catalogue: seq<TypeDetails>, environmentTagKey: string)
    ensures ScanASGTags(tags, raw, region, catalogue, environmentTagKey).vm.pricingHourly
            == if ASGHasCapacity(raw) && HasTag(tags, PowerToggleEnabledKey, "true")
               then (match LastMemberPrice(catalogue, raw.memberTypes, region)
                     case Some(p) => p
                     case None => 0.0)
               else 0.0
  {
    if |tags| > 0 {
      var prefix := tags[..|tags| - 1];
      var tag := tags[|tags| - 1];
      ScanASGPrice(prefix, raw, region, catalogue, environmentTagKey);
      HasTagSnoc(tags, PowerToggleEnabledKey, "true");
      ASGTagStepFacts(ScanASGTags(prefix, raw, region, catalogue, environmentTagKey), tag, raw, region,
                      catalogue, environmentTagKey);
    }
  }

  /** What one iteration of the tag loop changes. */
  lemma ASGTagStepFacts(acc: ASGScan, tag: Tag, raw: RawASG, region: string,
                        catalogue: seq<TypeDetails>, environmentTagKey: string)
    ensures var r := ASGTagStep(acc, tag, raw, region, catalogue, environmentTagKey);
            var enable := tag.key == PowerToggleEnabledKey && tag.value == "true";
            && r.valid == (acc.valid || enable)
            && r.vm.environment == (if tag.key == environmentTagKey && tag.value != "" then tag.value else acc.vm.environment)
            && r.vm.state == (if !enable then acc.vm.state else if ASGHasCapacity(raw) then "running" else "stopped")
            && r.vm.vcpu == (if enable && ASGHasCapacity(raw) then acc.vm.vcpu + MembersVCPU(catalogue, raw.memberTypes) else acc.vm.vcpu)
            && r.vm.memoryGB == (if enable && ASGHasCapacity(raw) then acc.vm.memoryGB + MembersMemory(catalogue, raw.memberTypes) else acc.vm.memoryGB)
            && r.vm.pricingHourly == (if enable && ASGHasCapacity(raw)
                                      then (match LastMemberPrice(catalogue, raw.memberTypes, region)
                                            case Some(p) => p
                                            case None => acc.vm.pricingHourly)
                                      else acc.vm.pricingHourly)
            && r.vm == acc.vm.(state := r.vm.state, environment := r.vm.environment,
                               vcpu := r.vm.vcpu, memoryGB := r.vm.memoryGB, pricingHourly := r.vm.pricingHourly)
  {
  }

  /** Whether a tag is present, split into the earlier tags and the last one. */
  lemma HasTagSnoc(tags: seq<Tag>, key: string, value: string)
    requires |tags| > 0
    ensures HasTag(tags, key, value) <==>
              HasTag(tags[..|tags| - 1], key, value) || (tags[|tags| - 1].key == key && tags[|tags| - 1].value == value)
  {
    var prefix := tags[..|tags| - 1];
    assert forall i :: 0 <= i < |tags| - 1 ==> prefix[i] == tags[i];
    if HasTag(tags, key, value) && !(tags[|tags| - 1].key == key && tags[|tags| - 1].value == value) {
      var i :| 0 <= i < |tags| && tags[i].key == key && tags[i].value == value;
      assert prefix[i].key == key && prefix[i].value == value;
    }
  }

  /**
   * The normalisation of one group in pollForASG: admitted only when it carries
   * power-toggle-enabled=true and a valid environment name.
   */
  function NormalizeASG(cfg: Config, catalogue: seq<TypeDetails>, region: string, raw: RawASG): (r: Option<VM>)
    ensures r.Some? <==> HasTag(raw.tags, PowerToggleEnabledKey, "true")
                         && ValidateEnvName(cfg.envNameIgnore, LastNonEmptyValue(raw.tags, cfg.environmentTagKey))
    ensures r.Some? ==> r.value.isASG && r.value.name == raw.name && r.value.region == region
                        && r.value.instanceId == ASGLabel && r.value.instanceType == ASGLabel
                        && r.value.environment == LastNonEmptyValue(raw.tags, cfg.environmentTagKey)
                        && r.value.asgInstanceCount == |raw.memberTypes|
                        && r.value.desiredCapacity == raw.desiredCapacity
                        && r.value.minSize == raw.minSize && r.value.maxSize == raw.maxSize
    ensures r.Some? ==> (r.value.state == "running" <==> ASGHasCapacity(raw))
                        && (r.value.state == "stopped" <==> !ASGHasCapacity(raw))
    ensures r.Some? ==> r.value == ScanASGTags(raw.tags, raw, region, catalogue, cfg.environmentTagKey).vm
  {
    var scan := ScanASGTags(raw.tags, raw, region, catalogue, cfg.environmentTagKey);
    if scan.valid && ValidateEnvName(cfg.envNameIgnore, scan.vm.environment) then Some(scan.vm) else None
  }

  /**
   * A kept group's size and price: with capacity, its members' vCPU and memory
   * once per enabling tag and the last priced member's price; without, zero.
   */
  lemma NormalizeASGSize(cfg: Config, catalogue: seq<TypeDetails>, region: string, raw: RawASG)
    requires NormalizeASG(cfg, catalogue, region, raw).Some?
    ensures var vm := NormalizeASG(cfg, catalogue, region, raw).value;
            var n := CountTag(raw.tags, PowerToggleEnabledKey, "true");
            && vm.vcpu == (if ASGHasCapacity(raw) then n * MembersVCPU(catalogue, raw.memberTypes) else 0)
            && vm.memoryGB == (if ASGHasCapacity(raw) then Repeated(n, MembersMemory(catalogue, raw.memberTypes)) else 0.0)
            && vm.pricingHourly == (if ASGHasCapacity(raw)
                                    then (match LastMemberPrice(catalogue, raw.memberTypes, region)
                                          case Some(p) => p
                                          case None => 0.0)
                                    else 0.0)
  {
    ScanASGVCPU(raw.tags, raw, region, catalogue, cfg.environmentTagKey);
    ScanASGMemory(raw.tags, raw, region, catalogue, cfg.environmentTagKey);
    ScanASGPrice(raw.tags, raw, region, catalogue, cfg.environmentTagKey);
  }

  // ---------------------------------------------------------------- EC2 records

  /** What pollForEC2 reads of one instance. */
  datatype RawEC2 = RawEC2(instanceId: string, state: string, instanceType: string, tags: seq<Tag>)

  datatype EC2Scan = EC2Scan(environment: string, name: string, inASG: bool)

  /** The tag loop of pollForEC2, one pass collecting environment, Name and group membership. */
  function ScanEC2Tags(tags: seq<Tag>, environmentTagKey: string): (r: EC2Scan)
    ensures r.environment == LastNonEmptyValue(tags, environmentTagKey)
    ensures r.name == LastValue(tags, NameKey)
    ensures r.inASG <==> HasKey(tags, ASGGroupNameKey)
  {
    if |tags| == 0 then EC2Scan("", "", false)
    else
      var prefix := tags[..|tags| - 1];
      assert forall i :: 0 <= i < |tags| - 1 ==> prefix[i] == tags[i];
      var acc := ScanEC2Tags(prefix, environmentTagKey);
      var tag := tags[|tags| - 1];
      EC2Scan(if tag.key == environmentTagKey && tag.value != "" then tag.value else acc.environment,
              if tag.key == NameKey then tag.value else acc.name,
              acc.inASG || tag.key == ASGGroupNameKey)
  }

  /** Enrichment of a plain instance from the catalogue (left at zero when the type is unknown). */
  function EnrichInstance(vm: VM, catalogue: seq<TypeDetails>, pricingRegion: string): (r: VM)
    ensures r == vm.(vcpu := r.vcpu, memoryGB := r.memoryGB, pricingHourly := r.pricingHourly)
    ensures !GetInstanceTypeDetails(catalogue, vm.instanceType).found ==> r == vm
  {
    var d := GetInstanceTypeDetails(catalogue, vm.instanceType);
    if d.found then
      vm.(memoryGB := d.details.memoryGB, vcpu := d.details.vcpu,
          pricingHourly := if pricingRegion in d.details.pricingHourlyByRegion
                           then d.details.pricingHourlyByRegion[pricingRegion] else vm.pricingHourly)
    else vm
  }

  /**
   * The normalisation of one instance in pollForEC2: members of an ASG are skipped,
   * the rest are admitted when their environment name is valid.
   */
  function NormalizeEC2(cfg: Config, catalogue: seq<TypeDetails>, region: string, raw: RawEC2): (r: Option<VM>)
    ensures r.Some? <==> !HasKey(raw.tags, ASGGroupNameKey)
                         && ValidateEnvName(cfg.envNameIgnore, LastNonEmptyValue(raw.tags, cfg.environmentTagKey))
    ensures r.Some? ==> !r.value.isASG && r.value.instanceId == raw.instanceId && r.value.state == raw.state
                        && r.value.instanceType == raw.instanceType && r.value.region == region
                        && r.value.environment == LastNonEmptyValue(raw.tags, cfg.environmentTagKey)
                        && r.value.name == LastValue(raw.tags, NameKey)
    ensures r.Some? && GetInstanceTypeDetails(catalogue, raw.instanceType).found ==>
              r.value.vcpu == GetInstanceTypeDetails(catalogue, raw.instanceType).details.vcpu
              && r.value.memoryGB == GetInstanceTypeDetails(catalogue, raw.instanceType).details.memoryGB
              && r.value.pricingHourly
                 == var prices := GetInstanceTypeDetails(catalogue, raw.instanceType).details.pricingHourlyByRegion;
                    if region in prices then prices[region] else 0.0
    ensures r.Some? && !GetInstanceTypeDetails(catalogue, raw.instanceType).found ==>
              r.value.vcpu == 0 && r.value.memoryGB == 0.0 && r.value.pricingHourly == 0.0
  {
    var scan := ScanEC2Tags(raw.tags, cfg.environmentTagKey);
    if scan.inASG then None
    else
      var vm := EnrichInstance(
        VM("", raw.instanceId, raw.instanceType, scan.name, raw.state, scan.environment, region,
           0, 0.0, 0.0, false, 0, 0, 0, 0),
        catalogue, region);
      if ValidateEnvName(cfg.envNameIgnore, vm.environment) then Some(vm) else None
  }

  // ---------------------------------------------------------------- polls

  /** One region's answer to a describe call. */
  datatype RegionReply<T> = RegionReply(region: string, reply: Result<seq<T>>)

  /** The values `f` admits from `raws`, in order: the loop shape shared by both polls. */
  function Collect<T>(raws: seq<T>, f: T -> Option<VM>): (r: seq<VM>)
    ensures forall v :: v in r <==> exists k :: 0 <= k < |raws| && f(raws[k]) == Some(v)
  {
    if |raws| == 0 then []
    else
      var prefix := raws[..|raws| - 1];
      assert forall k :: 0 <= k < |raws| - 1 ==> prefix[k] == raws[k];
      var rest := Collect(prefix, f);
      match f(raws[|raws| - 1])
      case Some(v) => rest + [v]
      case None => rest
  }

  /** The normalisation of one region's records. */
  function AtRegion<T>(f: (string, T) -> Option<VM>, region: string): T -> Option<VM>
  {
    raw => f(region, raw)
  }

  predicate AllReplied<T>(replies: seq<RegionReply<T>>)
  {
    forall i :: 0 <= i < |replies| ==> replies[i].reply.Ok?
  }

  /**
   * The region loop shared by both polls, over the regions in the order the
   * client map was iterated: any failed region fails the whole poll; otherwise
   * everything `f` admits from every region.
   */
  function PollRegions<T>(replies: seq<RegionReply<T>>, f: (string, T) -> Option<VM>): (r: Result<seq<VM>>)
    ensures r.Ok? <==> AllReplied(replies)
    ensures r.Err? ==> r.error == ProviderFailed
    ensures r.Ok? ==> forall v :: v in r.value <==>
              exists i, k :: 0 <= i < |replies| && 0 <= k < |replies[i].reply.value|
                             && f(replies[i].region, replies[i].reply.value[k]) == Some(v)
  {
    if |replies| == 0 then Ok([])
    else
      var prefix := replies[..|replies| - 1];
      assert forall i :: 0 <= i < |replies| - 1 ==> prefix[i] == replies[i];
      var last := replies[|replies| - 1];
      match PollRegions(prefix, f)
      case Err(e) => Err(e)
      case Ok(vms) =>
        match last.reply
        case Err(_) => Err(ProviderFailed)
        case Ok(raws) => Ok(vms + Collect(raws, AtRegion(f, last.region)))
  }

  function ASGNormalizer(cfg: Config, catalogue: seq<TypeDetails>): (string, RawASG) -> Option<VM>
  {
    (region, raw) => NormalizeASG(cfg, catalogue, region, raw)
  }

  function EC2Normalizer(cfg: Config, catalogue: seq<TypeDetails>): (string, RawEC2) -> Option<VM>
  {
    (region, raw) => NormalizeEC2(cfg, catalogue, region, raw)
  }

  /** pollForASG: every admitted group of every region, or a failure when any region failed. */
  function PollForASG(cfg: Config, catalogue: seq<TypeDetails>, replies: seq<RegionReply<RawASG>>): (r: Result<seq<VM>>)
    ensures r.Ok? <==> AllReplied(replies)
    ensures r.Err? ==> r.error == ProviderFailed
    ensures r.Ok? ==> forall v :: v in r.value <==>
              exists i, k :: 0 <= i < |replies| && 0 <= k < |replies[i].reply.value|
                             && NormalizeASG(cfg, catalogue, replies[i].region, replies[i].reply.value[k]) == Some(v)
  {
    PollRegions(replies, ASGNormalizer(cfg, catalogue))
  }

  /** pollForEC2, with the same all-or-nothing behaviour. */
  function PollForEC2(cfg: Config, catalogue: seq<TypeDetails>, replies: seq<RegionReply<RawEC2>>): (r: Result<seq<VM>>)
    ensures r.Ok? <==> AllReplied(replies)
    ensures r.Err? ==> r.error == ProviderFailed
    ensures r.Ok? ==> forall v :: v in r.value <==>
              exists i, k :: 0 <= i < |replies| && 0 <= k < |replies[i].reply.value|
                             && NormalizeEC2(cfg, catalogue, replies[i].region, replies[i].reply.value[k]) == Some(v)
  {
    PollRegions(replies, EC2Normalizer(cfg, catalogue))
  }

  // ---------------------------------------------------------------- order and multiplicity

  /** What the loop keeps of one record: its normalisation, when admitted. */
  function Kept<T>(raw: T, f: T -> Option<VM>): seq<VM>
  {
    match f(raw)
    case Some(v) => [v]
    case None => []
  }

  /** Reference: the admitted records read from the front, each kept once, in provider order. */
  function CollectFront<T>(raws: seq<T>, f: T -> Option<VM>): seq<VM>
  {
    if |raws| == 0 then [] else Kept(raws[0], f) + CollectFront(raws[1..], f)
  }

  /** Reference: every answered region in reply order, each contributing its admitted records in order. */
  function PollFront<T>(replies: seq<RegionReply<T>>, f: (string, T) -> Option<VM>): seq<VM>
  {
    if |replies| == 0 then []
    else
      (match replies[0].reply
       case Ok(raws) => CollectFront(raws, AtRegion(f, replies[0].region))
       case Err(_) => [])
      + PollFront(replies[1..], f)
  }

  /** Collecting two runs of records is collecting each and concatenating. */
  lemma {:induction false} CollectAppend<T>(xs: seq<T>, ys: seq<T>, f: T -> Option<VM>)
    ensures Collect(xs + ys, f) == Collect(xs, f) + Collect(ys, f)
  {
    if |ys| == 0 {
      assert xs + ys == xs;
    } else {
      var zs := ys[..|ys| - 1];
      CollectAppend(xs, zs, f);
      assert (xs + ys)[..|xs + ys| - 1] == xs + zs;
      assert (xs + ys)[|xs + ys| - 1] == ys[|ys| - 1];
    }
  }

  /** The loop keeps exactly the admitted records, in order and once each. */
  lemma {:induction false} CollectInOrder<T>(raws: seq<T>, f: T -> Option<VM>)
    ensures Collect(raws, f) == CollectFront(raws, f)
  {
    if |raws| > 0 {
      CollectInOrder(raws[1..], f);
      CollectAppend([raws[0]], raws[1..], f);
      assert [raws[0]] + raws[1..] == raws;
      assert [raws[0]][..0] == [];
    }
  }

  lemma {:induction false} PollFrontAppend<T>(a: seq<RegionReply<T>>, b: seq<RegionReply<T>>, f: (string, T) -> Option<VM>)
    ensures PollFront(a + b, f) == PollFront(a, f) + PollFront(b, f)
  {
    if |a| > 0 {
      PollFrontAppend(a[1..], b, f);
      assert (a + b)[1..] == a[1..] + b;
      assert (a + b)[0] == a[0];
    } else {
      assert a + b == b;
    }
  }

  /**
   * A successful region loop lists the regions in reply order and, within each,
   * the admitted records in provider order, each once.
   */
  lemma {:induction false} PollRegionsInOrder<T>(replies: seq<RegionReply<T>>, f: (string, T) -> Option<VM>)
    requires AllReplied(replies)
    ensures PollRegions(replies, f) == Ok(PollFront(replies, f))
  {
    if |replies| > 0 {
      var prefix, last := replies[..|replies| - 1], replies[|replies| - 1];
      PollRegionsSnoc(replies, f);
      PollRegionsInOrder(prefix, f);
      CollectInOrder(last.reply.value, AtRegion(f, last.region));
      PollFrontAppend(prefix, [last], f);
      PollFrontOne(last, f);
      assert prefix + [last] == replies;
    }
  }

  /** The region loop split into the earlier regions and the last one, when all answered. */
  lemma PollRegionsSnoc<T>(replies: seq<RegionReply<T>>, f: (string, T) -> Option<VM>)
    requires |replies| > 0 && AllReplied(replies)
    ensures AllReplied(replies[..|replies| - 1])
    ensures PollRegions(replies, f)
            == Ok(PollRegions(replies[..|replies| - 1], f).value
                  + Collect(replies[|replies| - 1].reply.value, AtRegion(f, replies[|replies| - 1].region)))
  {
    var prefix := replies[..|replies| - 1];
    assert forall i :: 0 <= i < |prefix| ==> prefix[i] == replies[i];
  }

  lemma PollFrontOne<T>(reply: RegionReply<T>, f: (string, T) -> Option<VM>)
    requires reply.reply.Ok?
    ensures PollFront([reply], f) == CollectFront(reply.reply.value, AtRegion(f, reply.region))
  {
    assert [reply][1..] == [];
  }

  /** A successful group poll lists the admitted groups region by region, in provider order, each once. */
  lemma PollForASGInOrder(cfg: Config, catalogue: seq<TypeDetails>, replies: seq<RegionReply<RawASG>>)
    requires AllReplied(replies)
    ensures PollForASG(cfg, catalogue, replies) == Ok(PollFront(replies, ASGNormalizer(cfg, catalogue)))
  {
    PollRegionsInOrder(replies, ASGNormalizer(cfg, catalogue));
  }

  /** A successful instance poll lists the admitted instances region by region, in provider order, each once. */
  lemma PollForEC2InOrder(cfg: Config, catalogue: seq<TypeDetails>, replies: seq<RegionReply<RawEC2>>)
    requires AllReplied(replies)
    ensures PollForEC2(cfg, catalogue, replies) == Ok(PollFront(replies, EC2Normalizer(cfg, catalogue)))
  {
    PollRegionsInOrder(replies, EC2Normalizer(cfg, catalogue));
  }
}
