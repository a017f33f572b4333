/**
 Job types, their descriptors, and the resolver's index from message references and versions to bindings.
 */
module JobCatalog {
  import opened Common

  type Decoder = nat
  type Data = nat

  /** The class attributes of a job type.  `path` is None for a class that is not importable at module level; `sound`
      stands for the remaining checks of the type itself: a concrete subclass with a policy, a codec and decoders. */
  datatype JobType = JobType(
    name: nat,
    path: Option<string>,
    reference: Option<string>,
    legacyReferences: seq<string>,
    version: int,
    codec: Decoder,
    legacyDecoders: map<int, Decoder>,
    sound: bool)

  datatype Descriptor = Descriptor(
    reference: string,
    legacyReferences: seq<string>,
    version: int,
    jobType: nat,
    codec: Decoder,
    legacyDecoders: map<int, Decoder>)

  // ---- Descriptions ----------------------------------------------------------------------------

  predicate IsAlphanumeric(c: char) {
    'A' <= c <= 'Z' || 'a' <= c <= 'z' || '0' <= c <= '9'
  }

  predicate ValidReference(s: string) {
    && 1 <= |s| <= 500 && IsAlphanumeric(s[0])
    && forall i :: 0 <= i < |s| ==> IsAlphanumeric(s[i]) || s[i] == '_' || s[i] == '.' || s[i] == ':' || s[i] == '-'
  }

  /** The class path has to be valid even when an explicit reference replaces it. */
  function ReferenceOf(j: JobType): Option<string> {
    if j.path.None? || !ValidReference(j.path.value) then None
    else if j.reference.None? then j.path
    else if ValidReference(j.reference.value) then j.reference
    else None
  }

  predicate Distinct(s: seq<string>) {
    forall i, j :: 0 <= i < j < |s| ==> s[i] != s[j]
  }

  predicate ValidLegacyReferences(references: seq<string>, reference: string) {
    && (forall i :: 0 <= i < |references| ==> ValidReference(references[i]))
    && reference !in references && Distinct(references)
  }

  /** None stands for a QueueConfigurationError. */
  function Describe(j: JobType): Option<Descriptor> {
    var reference := ReferenceOf(j);
    if !j.sound || reference.None? || !ValidLegacyReferences(j.legacyReferences, reference.value) || j.version < 1
       || exists v :: v in j.legacyDecoders && !(1 <= v < j.version)
    then None
    else Some(Descriptor(reference.value, j.legacyReferences, j.version, j.name, j.codec, j.legacyDecoders))
  }

  method ValidateLegacyReferences(references: seq<string>, reference: string) returns (valid: bool)
    ensures valid <==> ValidLegacyReferences(references, reference)
  {
    var seen: set<string> := {};
    for i := 0 to |references|
      invariant forall k :: 0 <= k < i ==>
              ValidReference(references[k]) && references[k] in seen && references[k] != reference
      invariant forall r :: r in seen ==> exists k :: 0 <= k < i && references[k] == r
      invariant Distinct(references[..i])
    {
      if !ValidReference(references[i]) || references[i] == reference || references[i] in seen {
        return false;
      }
      seen := seen + {references[i]};
    }
    assert references[..|references|] == references;
    valid := true;
  }

  method DescribeJob(j: JobType) returns (r: Option<Descriptor>)
    ensures r == Describe(j)
    ensures r.Some? <==>
      && j.sound && j.version >= 1 && (forall v :: v in j.legacyDecoders ==> 1 <= v < j.version)
      && j.path.Some? && ValidReference(j.path.value) && (j.reference.Some? ==> ValidReference(j.reference.value))
      && (forall i :: 0 <= i < |j.legacyReferences| ==>
            ValidReference(j.legacyReferences[i])
            && j.legacyReferences[i] != if j.reference.Some? then j.reference.value else j.path.value)
      && (forall i, k :: 0 <= i < k < |j.legacyReferences| ==> j.legacyReferences[i] != j.legacyReferences[k])
    ensures r.Some? ==>
      r.value == Descriptor(if j.reference.Some? then j.reference.value else j.path.value, j.legacyReferences,
          j.version, j.name, j.codec, j.legacyDecoders)
  {
    var reference := ReferenceOf(j);
    if !j.sound || reference.None? {
      return None;
    }
    var valid := ValidateLegacyReferences(j.legacyReferences, reference.value);
    if !valid || j.version < 1 {
      return None;
    }
    var decoders: map<int, Decoder> := map[];
    var left: set<int> := j.legacyDecoders.Keys;
    while left != {}
      invariant left <= j.legacyDecoders.Keys
      invariant forall v :: v in j.legacyDecoders && v !in left ==> 1 <= v < j.version
      invariant decoders == j.legacyDecoders - left
      decreases |left|
    {
      EmptyOrMember(left);
      var v: int :| v in left;
      if !(1 <= v < j.version) {
        return None;
      }
      decoders := decoders[v := j.legacyDecoders[v]];
      left := left - {v};
    }
    assert decoders == j.legacyDecoders;
    r := Some(Descriptor(reference.value, j.legacyReferences, j.version, j.name, j.codec, decoders));
  }

  /** None stands for an UnsupportedJobVersionError. */
  function DecoderFor(d: Descriptor, version: int): Option<Decoder> {
    if version < 1 then None
    else if version == d.version then Some(d.codec)
    else if version in d.legacyDecoders then Some(d.legacyDecoders[version])
    else None
  }

  lemma EmptyOrMember(s: set<int>)
    ensures s == {} || exists v :: v in s
  {
    if forall v :: v !in s {
      assert s == {};
    }
  }

  function References(d: Descriptor): seq<string> {
    [d.reference] + d.legacyReferences
  }

  lemma ReferencesAreDistinct(j: JobType)
    requires Describe(j).Some?
    ensures Distinct(References(Describe(j).value))
  {
    var d := Describe(j).value;
    forall i, k | 0 <= i < k < |References(d)|
      ensures References(d)[i] != References(d)[k]
    {
      assert References(d)[k] == d.legacyReferences[k - 1];
      assert i > 0 ==> References(d)[i] == d.legacyReferences[i - 1];
    }
  }

  // ---- The resolver ----------------------------------------------------------------------------

  datatype Binding = Binding(descriptor: Descriptor, decoder: Decoder)

  datatype Failure = UnknownJob | UnsupportedVersion

  datatype Resolver = Resolver(bindings: map<(string, int), Binding>, references: set<string>) {
    function Resolve(reference: string, version: int): Outcome<Binding, Failure> {
      if reference !in references then Raised(UnknownJob)
      else if version < 1 then Raised(UnsupportedVersion)
      else if (reference, version) in bindings then Returned(bindings[(reference, version)])
      else Raised(UnsupportedVersion)
    }
  }

  /** The naive search: the first type of the list that goes by the reference. */
  function Owner(jobs: seq<JobType>, reference: string): Option<Descriptor>
    decreases |jobs|
  {
    if jobs == [] then None
    else
      var earlier := Owner(jobs[..|jobs| - 1], reference);
      var last := Describe(jobs[|jobs| - 1]);
      if earlier.Some? then earlier
      else if last.Some? && reference in References(last.value) then last
      else None
  }

  function Bound(d: Descriptor, version: int): Option<Binding> {
    var decoder := DecoderFor(d, version);
    if decoder.None? then None else Some(Binding(d, decoder.value))
  }

  function Search(jobs: seq<JobType>, reference: string, version: int): Outcome<Binding, Failure> {
    var d := Owner(jobs, reference);
    if d.None? then Raised(UnknownJob)
    else
      var binding := Bound(d.value, version);
      if binding.None? then Raised(UnsupportedVersion) else Returned(binding.value)
  }

  predicate Apart(j: JobType, k: JobType) {
    Describe(j).Some? && Describe(k).Some? ==>
      forall r :: r in References(Describe(j).value) ==> r !in References(Describe(k).value)
  }

  /** Every type is valid and no two go by a common reference, current or legacy. */
  ghost predicate Accepted(jobs: seq<JobType>) {
    && (forall i :: 0 <= i < |jobs| ==> Describe(jobs[i]).Some?)
    && (forall i, k :: 0 <= i < k < |jobs| ==> Apart(jobs[i], jobs[k]))
  }

  /** The binding the index holds, or should hold. */
  function Lookup(bindings: map<(string, int), Binding>, reference: string, version: int): Option<Binding> {
    if (reference, version) in bindings then Some(bindings[(reference, version)]) else None
  }

  function Expected(jobs: seq<JobType>, reference: string, version: int): Option<Binding> {
    var d := Owner(jobs, reference);
    if d.None? then None else Bound(d.value, version)
  }

  ghost predicate Indexes(bindings: map<(string, int), Binding>, jobs: seq<JobType>) {
    forall r, v :: Lookup(bindings, r, v) == Expected(jobs, r, v)
  }

  ghost predicate Knows(references: set<string>, jobs: seq<JobType>) {
    forall r :: r in references <==> Owner(jobs, r).Some?
  }

  /** All versions of one reference. */
  method BindReference(bindings: map<(string, int), Binding>, d: Descriptor, reference: string)
    returns (r: map<(string, int), Binding>)
    requires d.version >= 1 && forall v :: v in d.legacyDecoders ==> 1 <= v < d.version
    requires forall v :: Lookup(bindings, reference, v) == None
    ensures forall v :: Lookup(r, reference, v) == Bound(d, v)
    ensures forall q, v :: q != reference ==> Lookup(r, q, v) == Lookup(bindings, q, v)
  {
    r := bindings;
    var left: set<int> := {d.version} + d.legacyDecoders.Keys;
    while left != {}
      invariant left <= {d.version} + d.legacyDecoders.Keys
      invariant forall v :: Lookup(r, reference, v) == if v in left then None else Bound(d, v)
      invariant forall q, v :: q != reference ==> Lookup(r, q, v) == Lookup(bindings, q, v)
      decreases |left|
    {
      EmptyOrMember(left);
      var v: int :| v in left;
      r := r[(reference, v) := Binding(d, DecoderFor(d, v).value)];
      left := left - {v};
    }
  }

  /** The two inner loops of one job type. */
  method AddJob(bindings: map<(string, int), Binding>, references: set<string>, ghost jobs: seq<JobType>, j: JobType,
      d: Descriptor)
    returns (added: Option<map<(string, int), Binding>>, known: set<string>)
    requires Describe(j) == Some(d) && Indexes(bindings, jobs) && Knows(references, jobs)
    ensures added.Some? <==> forall r :: r in References(d) ==> Owner(jobs, r).None?
    ensures added.Some? ==> Indexes(added.value, jobs + [j]) && Knows(known, jobs + [j])
  {
    known := references;
    var own := References(d);
    ReferencesAreDistinct(j);
    for i := 0 to |own|
      invariant forall k :: 0 <= k < i ==> own[k] !in references
      invariant known == references + (set k | 0 <= k < i :: own[k])
    {
      if own[i] in known {
        assert own[i] in References(d) && own[i] !in own[..i];
        return None, known;
      }
      known := known + {own[i]};
    }
    var r := bindings;
    for i := 0 to |own|
      invariant forall q, v :: Lookup(r, q, v) == if q in own[..i] then Bound(d, v) else Lookup(bindings, q, v)
    {
      assert forall v :: Lookup(bindings, own[i], v) == Expected(jobs, own[i], v);
      assert own[i] !in own[..i];
      r := BindReference(r, d, own[i]);
      assert own[..i + 1] == own[..i] + [own[i]];
    }
    assert own[..|own|] == own;
    OwnerOfExtended(jobs, j);
    added := Some(r);
  }

  function OwnerOr(jobs: seq<JobType>, j: JobType, reference: string): Option<Descriptor> {
    if Owner(jobs, reference).Some? then Owner(jobs, reference)
    else if Describe(j).Some? && reference in References(Describe(j).value) then Describe(j)
    else None
  }

  lemma OwnerOfExtended(jobs: seq<JobType>, j: JobType)
    ensures forall r :: Owner(jobs + [j], r) == OwnerOr(jobs, j, r)
  {
    assert (jobs + [j])[..|jobs|] == jobs;
  }

  /** `__post_init__`: either the configuration is refused, or the index answers as the search does. */
  method Build(jobs: seq<JobType>) returns (r: Option<Resolver>)
    ensures r.Some? <==> Accepted(jobs)
    ensures r.Some? ==> forall reference, version ::
            r.value.Resolve(reference, version) == Search(jobs, reference, version)
  {
    var bindings: map<(string, int), Binding>, references: set<string> := map[], {};
    for i := 0 to |jobs|
      invariant Accepted(jobs[..i]) && Indexes(bindings, jobs[..i]) && Knows(references, jobs[..i])
    {
      assert jobs[..i + 1] == jobs[..i] + [jobs[i]];
      var d := DescribeJob(jobs[i]);
      if d.None? {
        return None;
      }
      var added, known := AddJob(bindings, references, jobs[..i], jobs[i], d.value);
      AcceptedOneMore(jobs[..i], jobs[i]);
      if added.None? {
        PrefixesAreAccepted(jobs, i + 1);
        return None;
      }
      bindings, references := added.value, known;
    }
    assert jobs[..|jobs|] == jobs;
    r := Some(Resolver(bindings, references));
    ResolveIsSearch(r.value, jobs);
  }

  lemma PrefixesAreAccepted(jobs: seq<JobType>, i: nat)
    requires i <= |jobs|
    ensures Accepted(jobs) ==> Accepted(jobs[..i])
  {
    hide Describe, Apart;
  }

  lemma {:induction false} OwnerIsListed(jobs: seq<JobType>, reference: string) returns (i: nat)
    requires Owner(jobs, reference).Some?
    ensures i < |jobs| && Describe(jobs[i]) == Owner(jobs, reference)
        && reference in References(Owner(jobs, reference).value)
    decreases |jobs|
  {
    hide Describe, References;
    i := |jobs| - 1;
    if Owner(jobs[..|jobs| - 1], reference).Some? {
      i := OwnerIsListed(jobs[..|jobs| - 1], reference);
    }
  }

  /** Among accepted types every reference has at most one owner, wherever it stands. */
  lemma {:induction false} OwnerIsUnique(jobs: seq<JobType>, i: nat, reference: string)
    requires Accepted(jobs) && i < |jobs| && reference in References(Describe(jobs[i]).value)
    ensures Owner(jobs, reference) == Describe(jobs[i])
    decreases |jobs|
  {
    hide Describe, References;
    PrefixesAreAccepted(jobs, |jobs| - 1);
    if i < |jobs| - 1 {
      OwnerIsUnique(jobs[..|jobs| - 1], i, reference);
    } else if Owner(jobs[..i], reference).Some? {
      var k := OwnerIsListed(jobs[..i], reference);
    }
  }

  lemma AcceptedOneMore(jobs: seq<JobType>, j: JobType)
    requires Accepted(jobs) && Describe(j).Some?
    ensures Accepted(jobs + [j]) <==> forall r :: r in References(Describe(j).value) ==> Owner(jobs, r).None?
  {
    hide Describe, References;
    var all := jobs + [j];
    if Accepted(all) {
      forall k | 0 <= k < |jobs|
        ensures Apart(jobs[k], j)
      {
        assert all[k] == jobs[k] && all[|jobs|] == j;
      }
      forall r | r in References(Describe(j).value)
        ensures Owner(jobs, r).None?
      {
        if Owner(jobs, r).Some? {
          var k := OwnerIsListed(jobs, r);
        }
      }
    }
    if forall r :: r in References(Describe(j).value) ==> Owner(jobs, r).None? {
      forall k | 0 <= k < |jobs|
        ensures Apart(jobs[k], j)
      {
        forall r | r in References(Describe(jobs[k]).value)
          ensures r !in References(Describe(j).value)
        {
          OwnerIsUnique(jobs, k, r);
        }
      }
    }
  }

  lemma ResolveIsSearch(c: Resolver, jobs: seq<JobType>)
    requires Indexes(c.bindings, jobs) && Knows(c.references, jobs)
    ensures forall reference, version :: c.Resolve(reference, version) == Search(jobs, reference, version)
  {
    forall reference, version
      ensures c.Resolve(reference, version) == Search(jobs, reference, version)
    {
      assert Lookup(c.bindings, reference, version) == Expected(jobs, reference, version);
    }
  }

  // ---- Main results ----------------------------------------------------------------------------

  /** The binding found is that of the one type that owns the reference and supports the version; otherwise the two
      failures are told apart. */
  lemma SearchFindsTheOwner(jobs: seq<JobType>, i: nat, reference: string, version: int)
    requires Accepted(jobs) && i < |jobs|
    ensures var d := Describe(jobs[i]).value;
      reference in References(d) ==>
        Search(jobs, reference, version) ==
          if DecoderFor(d, version).Some? then Returned(Binding(d, DecoderFor(d, version).value))
              else Raised(UnsupportedVersion)
    ensures Search(jobs, reference, version) == Raised(UnknownJob) <==>
      forall k :: 0 <= k < |jobs| ==> reference !in References(Describe(jobs[k]).value)
  {
    hide Describe, References;
    forall k | 0 <= k < |jobs| && reference in References(Describe(jobs[k]).value)
      ensures Owner(jobs, reference) == Describe(jobs[k])
    {
      OwnerIsUnique(jobs, k, reference);
    }
    if Owner(jobs, reference).Some? {
      var k := OwnerIsListed(jobs, reference);
    }
  }

  /** The type goes by the reference: the explicit one or else its class path, or one it had before. */
  predicate GoesBy(j: JobType, reference: string) {
    (if j.reference.Some? then Some(reference) == j.reference else Some(reference) == j.path)
    || reference in j.legacyReferences
  }

  lemma ReferencesOfType(j: JobType, reference: string)
    requires Describe(j).Some?
    ensures reference in References(Describe(j).value) <==> GoesBy(j, reference)
  {
    var d := Describe(j).value;
    assert References(d) == [d.reference] + d.legacyReferences;
  }

  lemma DecoderByVersion(j: JobType, version: int)
    requires Describe(j).Some?
    ensures var decoder := DecoderFor(Describe(j).value, version);
      && (version == j.version ==> decoder == Some(j.codec))
      && (version in j.legacyDecoders ==> decoder == Some(j.legacyDecoders[version]))
      && (version != j.version && version !in j.legacyDecoders ==> decoder == None)
  {
  }

  /** Which decoder reads a message: under whatever reference the type is asked for, its codec for its own version, for
      every earlier version the decoder declared for that version, and none for any other. */
  lemma EachVersionHasItsDecoder(jobs: seq<JobType>, i: nat, reference: string, version: int)
    requires Accepted(jobs) && i < |jobs| && GoesBy(jobs[i], reference)
    ensures var j, d := jobs[i], Describe(jobs[i]).value;
      var answer := Search(jobs, reference, version);
      && d.jobType == j.name
      && (version == j.version ==> answer == Returned(Binding(d, j.codec)))
      && (version in j.legacyDecoders ==> answer == Returned(Binding(d, j.legacyDecoders[version])))
      && (version != j.version && version !in j.legacyDecoders ==> answer == Raised(UnsupportedVersion))
  {
    ReferencesOfType(jobs[i], reference);
    DecoderByVersion(jobs[i], version);
    SearchFindsTheOwner(jobs, i, reference, version);
  }

  /** What `encode_job` puts on the wire for a job of a listed type. */
  function EncodedHeader(j: JobType): (string, int)
    requires Describe(j).Some?
  {
    (Describe(j).value.reference, Describe(j).value.version)
  }

  /** Encoded jobs always find their own type and its current codec. */
  lemma EncodedJobsResolve(jobs: seq<JobType>, i: nat)
    requires Accepted(jobs) && i < |jobs|
    ensures Search(jobs, EncodedHeader(jobs[i]).0, EncodedHeader(jobs[i]).1) ==
      Returned(Binding(Describe(jobs[i]).value, jobs[i].codec))
    ensures Some(EncodedHeader(jobs[i]).0) == if jobs[i].reference.Some? then jobs[i].reference else jobs[i].path
    ensures EncodedHeader(jobs[i]).1 == jobs[i].version
  {
    SearchFindsTheOwner(jobs, i, EncodedHeader(jobs[i]).0, EncodedHeader(jobs[i]).1);
  }

  /** What a decoder makes of a payload; bad data is any of the errors that stand for it. */
  datatype Decoded = Job(jobType: nat, data: Data) | BadData | Broken

  datatype Execution = Handled(jobType: nat, data: Data) | DecodeFailed | DefinitionFailed

  /** `JobBinding.execute` up to the handler. */
  function Execute(binding: Binding, decode: (Decoder, Data) -> Decoded, payload: Data): Execution {
    match decode(binding.decoder, payload)
    case BadData => DecodeFailed
    case Broken => DefinitionFailed
    case Job(jobType, data) => if jobType != binding.descriptor.jobType then DefinitionFailed
        else Handled(jobType, data)
  }

  /** A handler is called exactly with a job of its own type; bad data and a defective decoder are told apart. */
  lemma HandledOnlyByItsType(binding: Binding, decode: (Decoder, Data) -> Decoded, payload: Data, data: Data)
    ensures var execution := Execute(binding, decode, payload);
      && (execution == Handled(binding.descriptor.jobType, data) <==>
            decode(binding.decoder, payload) == Job(binding.descriptor.jobType, data))
      && (execution == DecodeFailed <==> decode(binding.decoder, payload) == BadData)
      && (execution.Handled? ==> execution.jobType == binding.descriptor.jobType)
  {
  }

  /** Resolving an encoded job and executing the binding hands the very same job to its handler, when its codec reads
      back what it writes. */
  lemma EncodedJobIsHandled(jobs: seq<JobType>, i: nat, decode: (Decoder, Data) -> Decoded,
      encode: (Decoder, Data) -> Data, data: Data)
    requires Accepted(jobs) && i < |jobs|
    requires decode(jobs[i].codec, encode(jobs[i].codec, data)) == Job(jobs[i].name, data)
    ensures var answer := Search(jobs, EncodedHeader(jobs[i]).0, EncodedHeader(jobs[i]).1);
      answer.Returned? && Execute(answer.value, decode, encode(jobs[i].codec, data)) == Handled(jobs[i].name, data)
  {
    EncodedJobsResolve(jobs, i);
  }

  lemma {:induction false} TwiceInSequence(s: seq<JobType>, x: JobType) returns (i: nat, k: nat)
    requires multiset(s)[x] >= 2
    ensures i < k < |s| && s[i] == x && s[k] == x
    decreases |s|
  {
    var front, last := s[..|s| - 1], s[|s| - 1];
    assert s == front + [last];
    if last == x {
      assert multiset(front)[x] >= 1;
      assert x in front;
      i :| 0 <= i < |front| && front[i] == x;
      k := |s| - 1;
    } else {
      i, k := TwiceInSequence(front, x);
    }
  }

  lemma TwiceInMultiset(s: seq<JobType>, i: nat, k: nat)
    requires i < k < |s| && s[i] == s[k]
    ensures multiset(s)[s[i]] >= 2
  {
    assert s == s[..k] + s[k..];
    assert s[i] == s[..k][i] && s[k] == s[k..][0];
    assert s[i] in multiset(s[..k]) && s[i] in multiset(s[k..]);
  }

  /** Acceptance does not depend on the order of discovery. */
  lemma OrderDoesNotDecideAcceptance(jobs: seq<JobType>, other: seq<JobType>)
    requires multiset(jobs) == multiset(other) && Accepted(jobs)
    ensures Accepted(other)
  {
    hide Describe, References;
    forall i | 0 <= i < |other|
      ensures Describe(other[i]).Some?
    {
      assert other[i] in multiset(jobs);
    }
    forall i, k | 0 <= i < k < |other|
      ensures Apart(other[i], other[k])
    {
      assert other[i] in multiset(jobs) && other[k] in multiset(jobs);
      if other[i] == other[k] {
        TwiceInMultiset(other, i, k);
        var m, n := TwiceInSequence(jobs, other[i]);
        assert Apart(jobs[m], jobs[n]);
      } else {
        var m: nat :| m < |jobs| && jobs[m] == other[i];
        var n: nat :| n < |jobs| && jobs[n] == other[k];
        assert Apart(jobs[m], jobs[n]) || Apart(jobs[n], jobs[m]);
      }
    }
  }

  /** Nor does any answer. */
  lemma OrderDoesNotDecideAnswers(jobs: seq<JobType>, other: seq<JobType>, reference: string, version: int)
    requires multiset(jobs) == multiset(other) && Accepted(jobs)
    ensures Search(jobs, reference, version) == Search(other, reference, version)
  {
    OrderDoesNotDecideAcceptance(jobs, other);
    hide Describe, References, Accepted;
    if Owner(jobs, reference).Some? {
      var i := OwnerIsListed(jobs, reference);
      assert jobs[i] in multiset(other);
      var k: nat :| k < |other| && other[k] == jobs[i];
      OwnerIsUnique(other, k, reference);
    } else if Owner(other, reference).Some? {
      var k := OwnerIsListed(other, reference);
      assert other[k] in multiset(jobs);
      var i: nat :| i < |jobs| && jobs[i] == other[k];
      OwnerIsUnique(jobs, i, reference);
    }
  }
}
