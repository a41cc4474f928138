/**
 * Mirror selection from the configuration: the closed set of mirror
 * variants, the table of all of them, the mirror each one stands for, and
 * the string parser used when the configuration is read.
 */
module Config {
  import opened Wrappers

  /** `MirrorType`: which download mirror the user picked. */
  datatype MirrorType = Catboy | OsuDirect | Nerinyan | Beatconnect

  /** The mirror client each variant carries (unit structs implementing the `Mirror` trait). */
  datatype Mirror = CatboyMirror | OsuDirectMirror | NerinyanMirror | BeatconnectMirror

  /** `MirrorType::ALL`. */
  const ALL: seq<MirrorType> := [Catboy, OsuDirect, Nerinyan, Beatconnect]

  /** The names the parser accepts, in the order its error message lists them. */
  const VARIANTS: seq<string> := ["catboy", "osudirect", "nerinyan", "beatconnect"]

  /** serde's `unknown_variant` error: the rejected text and the accepted names. */
  datatype DeError = UnknownVariant(variant: string, expected: seq<string>)

  /** `get_mirror`: the mirror client carried by the variant. */
  function GetMirror(t: MirrorType): (m: Mirror)
    ensures m.CatboyMirror? <==> t.Catboy?
    ensures m.OsuDirectMirror? <==> t.OsuDirect?
    ensures m.NerinyanMirror? <==> t.Nerinyan?
    ensures m.BeatconnectMirror? <==> t.Beatconnect?
  {
    match t
    case Catboy => CatboyMirror
    case OsuDirect => OsuDirectMirror
    case Nerinyan => NerinyanMirror
    case Beatconnect => BeatconnectMirror
  }

  /** `MirrorType`'s `Deserialize` once the value has been read as a string: exact, case-sensitive matching. */
  function ParseMirrorType(s: string): (r: Result<MirrorType, DeError>)
    ensures r.Success? <==> s in VARIANTS
    ensures r.Failure? ==> r.error == UnknownVariant(s, VARIANTS)
    ensures forall i :: 0 <= i < |VARIANTS| && VARIANTS[i] == s ==> r == Success(ALL[i])
  {
    match s
    case "catboy" => Success(Catboy)
    case "osudirect" => Success(OsuDirect)
    case "nerinyan" => Success(Nerinyan)
    case "beatconnect" => Success(Beatconnect)
    case _ => Failure(UnknownVariant(s, VARIANTS))
  }

  /** `ALL` lists four variants, each exactly once. */
  lemma AllEnumeratesEachOnce()
    ensures |ALL| == 4
    ensures forall t: MirrorType :: multiset(ALL)[t] == 1
    ensures forall i, j :: 0 <= i < j < |ALL| ==> ALL[i] != ALL[j]
  {
    assert ALL == [Catboy] + [OsuDirect] + [Nerinyan] + [Beatconnect];
    forall t: MirrorType ensures multiset(ALL)[t] == 1 {
      assert multiset(ALL)[t]
        == multiset([Catboy])[t] + multiset([OsuDirect])[t] + multiset([Nerinyan])[t] + multiset([Beatconnect])[t];
      match t
      case Catboy =>
      case OsuDirect =>
      case Nerinyan =>
      case Beatconnect =>
    }
  }

  /** Every name the error message offers is accepted, and the two tables line up. */
  lemma ExpectedNamesParse()
    ensures |VARIANTS| == |ALL|
    ensures forall i :: 0 <= i < |VARIANTS| ==> ParseMirrorType(VARIANTS[i]) == Success(ALL[i])
  {
  }

  /** Distinct accepted names select distinct variants. */
  lemma ParseInjective(s1: string, s2: string)
    requires ParseMirrorType(s1).Success? && ParseMirrorType(s2).Success?
    requires ParseMirrorType(s1) == ParseMirrorType(s2)
    ensures s1 == s2
  {
  }

  /** Every variant can be selected by exactly one name. */
  lemma EveryVariantSelectable(t: MirrorType)
    ensures exists s :: s in VARIANTS && ParseMirrorType(s) == Success(t)
  {
    match t
    case Catboy => assert ParseMirrorType(VARIANTS[0]) == Success(t);
    case OsuDirect => assert ParseMirrorType(VARIANTS[1]) == Success(t);
    case Nerinyan => assert ParseMirrorType(VARIANTS[2]) == Success(t);
    case Beatconnect => assert ParseMirrorType(VARIANTS[3]) == Success(t);
  }

  /** Matching is case-sensitive: capitalised names are rejected. */
  lemma CaseVariantsRejected()
    ensures ParseMirrorType("Catboy") == Failure(UnknownVariant("Catboy", VARIANTS))
    ensures ParseMirrorType("OsuDirect").Failure?
    ensures ParseMirrorType("").Failure?
  {
  }

  /** Some variant of `ALL` carries the mirror client `m`. */
  predicate Carried(m: Mirror) {
    exists t :: t in ALL && GetMirror(t) == m
  }

  /** Different variants carry different mirror clients, and every client is carried by one. */
  lemma GetMirrorBijective()
    ensures forall t1, t2 :: GetMirror(t1) == GetMirror(t2) ==> t1 == t2
    ensures forall m: Mirror :: Carried(m)
  {
    forall m: Mirror ensures Carried(m) {
      match m
      case CatboyMirror => assert GetMirror(ALL[0]) == m;
      case OsuDirectMirror => assert GetMirror(ALL[1]) == m;
      case NerinyanMirror => assert GetMirror(ALL[2]) == m;
      case BeatconnectMirror => assert GetMirror(ALL[3]) == m;
    }
  }
}
