/**
 * Configuration of the Cloud Hypervisor to cAdvisor conversion: which guest
 * network interfaces count, which per-entity breakdowns are kept, and the
 * enricher that turns a sandbox id into pod labels through the registry.
 */
module ConverterConfig {
  import opened Wrappers
  import opened Text
  import opened Registry

  /** The pod labels the enricher attaches to converted metrics. */
  datatype EnrichedLabels = EnrichedLabels(podUid: string, podName: string, podNamespace: string)

  /** `EnrichedLabels::default()`: all three empty. */
  const NoLabels := EnrichedLabels("", "", "")

  /** A jiffy-to-seconds divisor; the conversion divides by it, so it is kept positive. */
  type PositiveReal = r: real | r > 0.0 witness 1.0

  /**
   * The conversion settings. The hypervisor type has a single variant and
   * the per-CPU switch is never read, so neither is kept.
   */
  datatype ConversionConfig = ConversionConfig(
    includePerInterface: bool,
    includePerDevice: bool,
    networkInterfacePatterns: seq<string>,
    cpuJiffyConversionFactor: PositiveReal)

  /** The interfaces a guest's traffic is counted on: the primary NIC and the virtual ones. */
  const DefaultPatterns: seq<string> := ["eth0", "veth.*", "tap.*", "tun.*"]

  /** No per-interface or per-device breakdown, default patterns, USER_HZ of 100. */
  const DefaultConfig := ConversionConfig(false, false, DefaultPatterns, 100.0)

  /** A pattern ending in `.*` is a prefix test on the rest of the pattern; any other pattern is an exact name. */
  predicate PatternMatches(pattern: string, iface: string)
  {
    if EndsWith(pattern, ".*") then StartsWith(iface, pattern[..|pattern| - 2]) else iface == pattern
  }

  /** Whether some pattern accepts the interface. */
  function MatchesNetworkInterface(patterns: seq<string>, iface: string): (r: bool)
    ensures r <==> exists i :: 0 <= i < |patterns| && PatternMatches(patterns[i], iface)
    ensures patterns == [] ==> !r
    decreases |patterns|
  {
    if patterns == [] then false
    else if PatternMatches(patterns[0], iface) then true
    else
      var rest := MatchesNetworkInterface(patterns[1..], iface);
      assert forall i :: 0 < i < |patterns| ==> patterns[i] == patterns[1..][i - 1];
      rest
  }

  /** A glob `p.*` accepts exactly the names that start with `p`. */
  lemma GlobIsPrefix(prefix: string, iface: string)
    ensures PatternMatches(prefix + ".*", iface) <==> StartsWith(iface, prefix)
  {
    var pattern := prefix + ".*";
    assert pattern[|pattern| - 2..] == ".*";
    assert pattern[..|pattern| - 2] == prefix;
  }

  /** The bare glob `.*` accepts every interface. */
  lemma BareGlobAcceptsAll(patterns: seq<string>, iface: string)
    requires ".*" in patterns
    ensures MatchesNetworkInterface(patterns, iface)
  {
    var i :| 0 <= i < |patterns| && patterns[i] == ".*";
    GlobIsPrefix("", iface);
    assert "" + ".*" == ".*";
  }

  lemma DefaultPatternShapes()
    ensures !EndsWith("eth0", ".*")
    ensures "veth.*" == "veth" + ".*" && "tap.*" == "tap" + ".*" && "tun.*" == "tun" + ".*"
  {
  }

  /**
   * The default patterns accept `eth0` and every name starting with `veth`,
   * `tap` or `tun`, and nothing else.
   */
  lemma DefaultPatternsAccept(iface: string)
    ensures MatchesNetworkInterface(DefaultPatterns, iface) <==>
      iface == "eth0" || StartsWith(iface, "veth") || StartsWith(iface, "tap") || StartsWith(iface, "tun")
  {
    DefaultPatternShapes();
    GlobIsPrefix("veth", iface);
    GlobIsPrefix("tap", iface);
    GlobIsPrefix("tun", iface);
    assert DefaultPatterns[0] == "eth0" && DefaultPatterns[1] == "veth.*";
    assert DefaultPatterns[2] == "tap.*" && DefaultPatterns[3] == "tun.*";
  }

  /** The accepted names of `test_interface_matching`. */
  lemma DefaultAcceptsExamples()
    ensures MatchesNetworkInterface(DefaultPatterns, "eth0")
    ensures MatchesNetworkInterface(DefaultPatterns, "veth1234567890ab")
    ensures MatchesNetworkInterface(DefaultPatterns, "tap0")
    ensures MatchesNetworkInterface(DefaultPatterns, "tun1")
  {
    DefaultPatternsAccept("eth0");
    DefaultPatternsAccept("veth1234567890ab");
    assert "veth1234567890ab"[..4] == "veth";
    DefaultPatternsAccept("tap0");
    assert "tap0"[..3] == "tap";
    DefaultPatternsAccept("tun1");
    assert "tun1"[..3] == "tun";
  }

  /** A name whose first letter is none of `e`, `v`, `t` is refused by the defaults. */
  lemma DefaultRejectsByFirstLetter(iface: string)
    requires iface != [] && iface[0] != 'e' && iface[0] != 'v' && iface[0] != 't'
    ensures !MatchesNetworkInterface(DefaultPatterns, iface)
  {
    DefaultPatternsAccept(iface);
    OtherFirstLetter(iface, "eth0");
    OtherFirstLetter(iface, "veth");
    OtherFirstLetter(iface, "tap");
    OtherFirstLetter(iface, "tun");
  }

  /** A name is neither equal to nor prefixed by a word whose first letter it does not share. */
  lemma OtherFirstLetter(iface: string, word: string)
    requires iface != [] && word != [] && iface[0] != word[0]
    ensures iface != word && !StartsWith(iface, word)
  {
  }

  /** The refused names of `test_interface_matching`: loopback, the Docker bridge and a Linux bridge. */
  lemma DefaultRejectsBridges()
    ensures !MatchesNetworkInterface(DefaultPatterns, "lo")
    ensures !MatchesNetworkInterface(DefaultPatterns, "docker0")
    ensures !MatchesNetworkInterface(DefaultPatterns, "br-abcdef")
  {
    DefaultRejectsByFirstLetter("lo");
    DefaultRejectsByFirstLetter("docker0");
    DefaultRejectsByFirstLetter("br-abcdef");
  }

  /** Only the first Ethernet interface is counted. */
  lemma DefaultRejectsSecondNic()
    ensures !MatchesNetworkInterface(DefaultPatterns, "eth1")
  {
    DefaultPatternsAccept("eth1");
    assert "eth1"[3] != "eth0"[3];
    assert "eth1"[..4][0] != "veth"[0];
    assert "eth1"[..3][0] != "tap"[0] && "eth1"[..3][0] != "tun"[0];
  }

  /** The enricher backed by the sandbox registry. */
  class CriLabelEnricher {
    const cache: SandboxCache

    constructor (cache: SandboxCache)
      ensures this.cache == cache
    {
      this.cache := cache;
    }

    /** The labels `Enrich` hands out, as a function of the registry. */
    function Enrichment(sandboxId: string, contended: bool): EnrichedLabels
      reads cache
    {
      if !contended && sandboxId in cache.sandboxes then
        var meta := cache.sandboxes[sandboxId];
        EnrichedLabels(meta.uid, meta.name, meta.namespace)
      else NoLabels
    }

    /**
     * The pod labels of a sandbox: its registered uid, name and namespace
     * when the non-blocking lookup finds it, otherwise empty labels (also
     * when a writer holds the registry).
     */
    method Enrich(sandboxId: string, contended: bool) returns (labels: EnrichedLabels)
      ensures labels == Enrichment(sandboxId, contended)
      ensures contended || sandboxId !in cache.sandboxes ==> labels == NoLabels
      ensures !contended && sandboxId in cache.sandboxes ==>
        var meta := cache.sandboxes[sandboxId];
        labels.podUid == meta.uid && labels.podName == meta.name && labels.podNamespace == meta.namespace
    {
      var found := cache.GetMetadataTry(sandboxId, contended);
      match found
      case Some(meta) =>
        labels := EnrichedLabels(meta.uid, meta.name, meta.namespace);
      case None =>
        labels := EnrichedLabels("", "", "");
    }
  }
}
