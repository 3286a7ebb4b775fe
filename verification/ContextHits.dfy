/**
  Search hits as the context packer sees them (crates/cce-engine/src/context.rs):
  the evidence role of a hit, its rendered text and the token estimate.
 */
module ContextHits {
  import opened Common
  import opened Decimals
  import opened Wrappers

  datatype Route =
    NoRetrieval | ExactSymbol | Lexical | DenseRaw | DenseSummary | Hybrid | Structural
    | KnowledgeRoute | HistoryRoute | DiffRoute | Zoekt | Pattern | Reranked

  datatype Representation =
    RawCode | Signature | FileDescriptor | SymbolSummary | RoleSummary | ModuleSummary
    | FlowSummary | TestBehavior | CommitSummary | CommitDiff | KnowledgePage

  /** The path is repository-relative and normalized: no `.`, no `..`, no doubled slash. */
  datatype Address = Address(path: string, startByte: nat, endByte: nat, startLine: nat, endLine: nat)

  datatype Hit = Hit(
    documentId: string, entityId: string, symbolName: Option<string>, representation: Representation,
    route: Route, rank: nat, score: real, contributingRoutes: seq<Route>, address: Option<Address>,
    evidence: seq<Address>, snippet: string, verifiedCurrent: bool, explanation: seq<string>)

  // ----- Roles -----

  datatype Role = Target | Contract | Caller | Test | Config | History | Knowledge

  /** Index just after the last occurrence of a character, or 0. */
  function AfterLast(s: string, c: char): (n: nat)
    ensures n <= |s|
    ensures c !in s[n..]
    ensures n > 0 ==> s[n - 1] == c
    ensures n == 0 <==> c !in s
  {
    if s == "" then 0
    else if s[|s| - 1] == c then |s|
    else
      var n := AfterLast(s[..|s| - 1], c);
      assert s[n..] == s[..|s| - 1][n..] + [s[|s| - 1]];
      assert s == s[..|s| - 1] + [s[|s| - 1]];
      n
  }

  /** `Path::file_name` of a normalized path */
  function FileName(path: string): string {
    path[AfterLast(path, '/')..]
  }

  /** `Path::extension`: what follows the last dot, unless that dot starts the name. */
  function Extension(name: string): Option<string> {
    var n := AfterLast(name, '.');
    if n <= 1 then None else Some(name[n..])
  }

  const CONFIG_EXTENSIONS: seq<string> := ["toml", "yaml", "yml", "lock"]

  predicate ConfigPath(path: string) {
    var name := FileName(path);
    || (Extension(name).Some? && AsciiLower(Extension(name).value) in CONFIG_EXTENSIONS)
    || name == "package.json"
  }

  function RoleOf(hit: Hit): Role {
    match hit.representation
    case TestBehavior => Test
    case CommitSummary => History
    case RoleSummary | ModuleSummary | FlowSummary | KnowledgePage => Knowledge
    case Signature => if hit.route.Structural? then Caller else Contract
    case _ =>
      if hit.route.Structural? then Caller
      else if hit.address.Some? && ConfigPath(hit.address.value.path) then Config
      else Target
  }

  lemma InTail(s: string, n: int, k: int, c: char)
    ensures 0 <= n <= k < |s| && s[k] == c ==> c in s[n..]
  {
    if 0 <= n <= k < |s| && s[k] == c {
      assert s[n..][k - n] == c;
    }
  }

  lemma AfterLastIs(s: string, c: char, m: nat)
    requires 0 < m <= |s| && s[m - 1] == c && c !in s[m..]
    ensures AfterLast(s, c) == m
  {
    InTail(s, AfterLast(s, c), m - 1, c);
    InTail(s, m, AfterLast(s, c) - 1, c);
  }

  /** The extension is the dot-free end of a name whose stem is not empty. */
  lemma ExtensionExactly(name: string, extension: string)
    ensures Extension(name) == Some(extension) <==>
            '.' !in extension && exists stem: string :: stem != "" && name == stem + "." + extension
  {
    var n := AfterLast(name, '.');
    if Extension(name) == Some(extension) {
      assert name == name[..n - 1] + "." + extension;
    }
    if '.' !in extension {
      forall stem: string | stem != "" && name == stem + "." + extension ensures Extension(name) == Some(extension) {
        assert name[|stem| + 1..] == extension && name[|stem|] == '.';
        AfterLastIs(name, '.', |stem| + 1);
      }
    }
  }

  // ----- Rendering -----

  function RouteName(route: Route): string {
    match route
    case NoRetrieval => "NoRetrieval"
    case ExactSymbol => "ExactSymbol"
    case Lexical => "Lexical"
    case DenseRaw => "DenseRaw"
    case DenseSummary => "DenseSummary"
    case Hybrid => "Hybrid"
    case Structural => "Structural"
    case KnowledgeRoute => "Knowledge"
    case HistoryRoute => "History"
    case DiffRoute => "Diff"
    case Zoekt => "Zoekt"
    case Pattern => "Pattern"
    case Reranked => "Reranked"
  }

  function Joined(parts: seq<string>, separator: string): string {
    if parts == [] then ""
    else if |parts| == 1 then parts[0]
    else Joined(parts[..|parts| - 1], separator) + separator + parts[|parts| - 1]
  }

  function RouteNames(routes: seq<Route>): string {
    "[" + Joined(seq(|routes|, i requires 0 <= i < |routes| => RouteName(routes[i])), ", ") + "]"
  }

  function SourceLine(address: Option<Address>): string {
    match address
    case None => "no direct source range"
    case Some(a) => a.path + ":" + Decimal(a.startLine) + "-" + Decimal(a.endLine) +
                    " bytes " + Decimal(a.startByte) + ".." + Decimal(a.endByte)
  }

  function RenderHit(hit: Hit): string {
    "Source: " + SourceLine(hit.address) + "\nRoute: " + RouteName(hit.route) +
    "; routes: " + RouteNames(hit.contributingRoutes) + "\nEvidence:\n" + hit.snippet
  }

  // ----- Token estimate -----

  const CODE_PUNCTUATION: string := "{}[]();:,.<>/\\"

  function Punctuation(s: string): nat {
    if s == "" then 0 else Punctuation(s[..|s| - 1]) + if s[|s| - 1] in CODE_PUNCTUATION then 1 else 0
  }

  /** No string is long enough for the source's saturating addition to saturate. */
  function EstimateTokens(s: string): nat {
    (|s| + Punctuation(s)) / 4 + 1
  }

  lemma {:induction false} PunctuationOfConcat(a: string, b: string)
    ensures Punctuation(a + b) == Punctuation(a) + Punctuation(b)
    decreases |b|
  {
    if b == "" {
      assert a + b == a;
    } else {
      PunctuationOfConcat(a, b[..|b| - 1]);
      assert (a + b)[..|a + b| - 1] == a + b[..|b| - 1];
    }
  }

  /** The places of a text that hold code punctuation. */
  function PunctuationPlaces(s: string): set<nat> {
    set i | 0 <= i < |s| && s[i] in {'{', '}', '[', ']', '(', ')', ';', ':', ',', '.', '<', '>', '/', '\\'}
  }

  lemma {:induction false} PunctuationIsPlaces(s: string)
    ensures Punctuation(s) == |PunctuationPlaces(s)|
  {
    if s != "" {
      var front := s[..|s| - 1];
      PunctuationIsPlaces(front);
      var places := PunctuationPlaces(front);
      assert PunctuationPlaces(s) == if s[|s| - 1] in CODE_PUNCTUATION then places + {|s| - 1} else places;
    }
  }

  /** The estimate is n exactly when n - 1 is a quarter, rounded down, of the characters with punctuation counted twice. */
  lemma EstimateExactly(s: string, n: nat)
    ensures EstimateTokens(s) == n <==> n > 0 && 4 * (n - 1) <= |s| + |PunctuationPlaces(s)| < 4 * n
  {
    PunctuationIsPlaces(s);
  }

  /** Shipping two texts as one item never costs more than shipping them apart, and saves at most one token. */
  lemma EstimateOfConcat(a: string, b: string)
    ensures EstimateTokens(a + b) <= EstimateTokens(a) + EstimateTokens(b) <= EstimateTokens(a + b) + 1
  {
    PunctuationOfConcat(a, b);
  }

  /** What shipping a hit costs. */
  function Cost(hit: Hit): nat {
    EstimateTokens(RenderHit(hit))
  }

  // ----- Items -----

  datatype Kind =
    OrientationKind | EntryPoint | Source | ContractKind | RelationPath | TestKind | ConfigKind | HistoryKind | KnowledgeKind

  datatype Provenance = Provenance(
    whyRetrieved: string, route: Route, rank: nat, score: real, snapshotId: string, verifiedCurrent: bool,
    symbolName: Option<string>, sourceAddress: Option<Address>, evidence: seq<Address>)

  datatype Item = Item(id: string, kind: Kind, title: string, body: string, estimatedTokens: nat, provenance: Provenance)

  function KindOf(role: Role, hit: Hit): Kind {
    match role
    case Test => TestKind
    case History => HistoryKind
    case Knowledge => KnowledgeKind
    case Caller => RelationPath
    case Contract => ContractKind
    case Config => ConfigKind
    case Target => if hit.route.ExactSymbol? then EntryPoint else Source
  }

  function TitleOf(hit: Hit): string {
    match hit.address
    case Some(a) => a.path + ":" + Decimal(a.startLine) + "-" + Decimal(a.endLine)
    case None => if hit.symbolName.Some? then hit.symbolName.value else hit.entityId
  }

  datatype Candidate = Candidate(role: Role, hit: Hit)

  function ItemOf(c: Candidate, snapshotId: string): Item {
    Item(c.hit.documentId, KindOf(c.role, c.hit), TitleOf(c.hit), RenderHit(c.hit), Cost(c.hit),
         Provenance(Joined(c.hit.explanation, "; "), c.hit.route, c.hit.rank, c.hit.score, snapshotId,
                    c.hit.verifiedCurrent, c.hit.symbolName, c.hit.address, c.hit.evidence))
  }
}
