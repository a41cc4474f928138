/**
 * The local collection index (osu!'s `collection.db`, held as a
 * `CollectionList`) and the two helpers that work on it: naming the local
 * collection from a template, and finding or creating a collection by name.
 */
module Collections {
  import opened Wrappers
  import opened Strings
  import opened Decimal
  import opened Collector

  /** One named collection: a name (possibly absent) and its beatmap checksums. */
  datatype Collection = Collection(name: Option<string>, beatmapHashes: seq<Option<string>>)

  /** One write of the whole list to durable storage, with what was written. */
  datatype Snapshot = Snapshot(path: string, collections: seq<Collection>)

  const AUTHOR_PLACEHOLDER := "{collection_author}"
  const TITLE_PLACEHOLDER := "{collection_title}"
  const ID_PLACEHOLDER := "{collection_id}"

  /** The local name for a remote collection: the three placeholders substituted in turn. */
  function FormatCollectionName(fmt: string, collection: RemoteCollection): string {
    var byAuthor := ReplaceAll(fmt, AUTHOR_PLACEHOLDER, collection.uploader.username);
    var byTitle := ReplaceAll(byAuthor, TITLE_PLACEHOLDER, collection.name);
    ReplaceAll(byTitle, ID_PLACEHOLDER, IntToDecimal(collection.id))
  }

  /** A template without any placeholder is used verbatim. */
  lemma FormatWithoutPlaceholders(fmt: string, collection: RemoteCollection)
    requires !Contains(fmt, AUTHOR_PLACEHOLDER)
    requires !Contains(fmt, TITLE_PLACEHOLDER)
    requires !Contains(fmt, ID_PLACEHOLDER)
    ensures FormatCollectionName(fmt, collection) == fmt
  {
    ReplaceAllAbsent(fmt, AUTHOR_PLACEHOLDER, collection.uploader.username);
    ReplaceAllAbsent(fmt, TITLE_PLACEHOLDER, collection.name);
    ReplaceAllAbsent(fmt, ID_PLACEHOLDER, IntToDecimal(collection.id));
  }

  /** A template naming only the id becomes the id's decimal rendering wherever it occurs. */
  lemma FormatIdOnly(fmt: string, collection: RemoteCollection)
    requires !Contains(fmt, AUTHOR_PLACEHOLDER)
    requires !Contains(fmt, TITLE_PLACEHOLDER)
    ensures FormatCollectionName(fmt, collection) == ReplaceAll(fmt, ID_PLACEHOLDER, IntToDecimal(collection.id))
  {
    ReplaceAllAbsent(fmt, AUTHOR_PLACEHOLDER, collection.uploader.username);
    ReplaceAllAbsent(fmt, TITLE_PLACEHOLDER, collection.name);
  }

  /** No text shorter than the pattern contains it. */
  lemma ShortTextLacks(s: string, pat: string)
    requires |s| < |pat|
    ensures !Contains(s, pat)
  {
  }

  /** The template "{collection_id}" alone names the collection by its id. */
  lemma FormatIdTemplate(collection: RemoteCollection)
    ensures FormatCollectionName(ID_PLACEHOLDER, collection) == IntToDecimal(collection.id)
  {
    ShortTextLacks(ID_PLACEHOLDER, AUTHOR_PLACEHOLDER);
    ShortTextLacks(ID_PLACEHOLDER, TITLE_PLACEHOLDER);
    FormatIdOnly(ID_PLACEHOLDER, collection);
    ReplaceAllWhole(ID_PLACEHOLDER, IntToDecimal(collection.id));
  }

  /** A rendered id holds none of the placeholders: each of them starts with `{`. */
  lemma IdTextHasNoPlaceholder(n: int)
    ensures !Contains(IntToDecimal(n), AUTHOR_PLACEHOLDER)
    ensures !Contains(IntToDecimal(n), TITLE_PLACEHOLDER)
    ensures !Contains(IntToDecimal(n), ID_PLACEHOLDER)
  {
    var s := IntToDecimal(n);
    IntToDecimalAlphabet(n);
    assert '{' !in s;
    if Contains(s, AUTHOR_PLACEHOLDER) { ContainedCharsOccur(s, AUTHOR_PLACEHOLDER, 0); }
    if Contains(s, TITLE_PLACEHOLDER) { ContainedCharsOccur(s, TITLE_PLACEHOLDER, 0); }
    if Contains(s, ID_PLACEHOLDER) { ContainedCharsOccur(s, ID_PLACEHOLDER, 0); }
  }

  /** A name made from the id template is a fixed point: formatting it again, for any collection, keeps it. */
  lemma FormatIdTemplateStable(collection: RemoteCollection, other: RemoteCollection)
    ensures FormatCollectionName(FormatCollectionName(ID_PLACEHOLDER, collection), other) == IntToDecimal(collection.id)
  {
    FormatIdTemplate(collection);
    IdTextHasNoPlaceholder(collection.id);
    FormatWithoutPlaceholders(IntToDecimal(collection.id), other);
  }

  /**
   * The substitutions are chained, author first: an uploader whose name is
   * itself the title placeholder gets the title substituted in turn.
   */
  lemma FormatSubstitutesInOrder(collection: RemoteCollection)
    requires collection.uploader.username == TITLE_PLACEHOLDER
    requires !Contains(collection.name, ID_PLACEHOLDER)
    ensures FormatCollectionName(AUTHOR_PLACEHOLDER, collection) == collection.name
  {
    var title := collection.name;
    ReplaceAllWhole(AUTHOR_PLACEHOLDER, TITLE_PLACEHOLDER);
    ReplaceAllWhole(TITLE_PLACEHOLDER, title);
    ReplaceAllAbsent(title, ID_PLACEHOLDER, IntToDecimal(collection.id));
  }

  /**
   * `collections.iter().position(|c| c.name.as_deref() == Some(name))`: the
   * first collection carrying the name, where an unnamed collection matches
   * nothing.
   */
  function Position(cs: seq<Collection>, name: string): (r: Option<nat>)
    ensures r.Some? ==> r.value < |cs| && cs[r.value].name == Some(name)
    ensures r.Some? ==> forall j :: 0 <= j < r.value ==> cs[j].name != Some(name)
    ensures r.None? <==> forall j :: 0 <= j < |cs| ==> cs[j].name != Some(name)
  {
    if cs == [] then None
    else if cs[0].name == Some(name) then Some(0)
    else match Position(cs[1..], name)
      case Some(i) => Some(i + 1)
      case None => None
  }

  /** How many collections carry the name. */
  function CountNamed(cs: seq<Collection>, name: string): (n: nat)
    ensures n <= |cs|
    ensures n == 0 <==> forall j :: 0 <= j < |cs| ==> cs[j].name != Some(name)
  {
    if cs == [] then 0
    else CountNamed(cs[..|cs| - 1], name) + (if cs[|cs| - 1].name == Some(name) then 1 else 0)
  }

  /** The list `get_or_create_collection` leaves behind. */
  function EnsureCollection(cs: seq<Collection>, name: string): (r: seq<Collection>)
    ensures Position(r, name) == Some(TargetIndex(cs, name))
    ensures cs <= r && |r| <= |cs| + 1
  {
    if Position(cs, name).Some? then cs
    else
      var r := cs + [Collection(Some(name), [])];
      assert r[|cs|].name == Some(name);
      assert forall j :: 0 <= j < |cs| ==> r[j] == cs[j];
      r
  }

  /** Where the collection `get_or_create_collection` returns sits in the new list. */
  function TargetIndex(cs: seq<Collection>, name: string): nat {
    match Position(cs, name)
    case Some(i) => i
    case None => |cs|
  }

  /** The checksums of the first collection carrying the name (none if there is no such collection). */
  function TargetHashes(cs: seq<Collection>, name: string): seq<Option<string>> {
    match Position(cs, name)
    case Some(i) => cs[i].beatmapHashes
    case None => []
  }

  /** An absent name gets exactly one new, empty collection, at the end. */
  lemma EnsureAppendsWhenAbsent(cs: seq<Collection>, name: string)
    requires Position(cs, name).None?
    ensures EnsureCollection(cs, name) == cs + [Collection(Some(name), [])]
    ensures TargetIndex(cs, name) == |cs|
  {
  }

  /** A present name leaves the list alone and designates its first carrier. */
  lemma EnsureKeepsWhenPresent(cs: seq<Collection>, name: string, i: nat)
    requires i < |cs| && cs[i].name == Some(name)
    requires forall j :: 0 <= j < i ==> cs[j].name != Some(name)
    ensures EnsureCollection(cs, name) == cs
    ensures TargetIndex(cs, name) == i
  {
  }

  /** Ensuring twice is ensuring once. */
  lemma EnsureIdempotent(cs: seq<Collection>, name: string)
    ensures EnsureCollection(EnsureCollection(cs, name), name) == EnsureCollection(cs, name)
    ensures TargetIndex(EnsureCollection(cs, name), name) == TargetIndex(cs, name)
  {
  }

  /** Unnamed collections are never the target of a lookup. */
  lemma UnnamedNeverMatches(cs: seq<Collection>, name: string, j: nat)
    requires j < |cs| && cs[j].name.None?
    ensures Position(cs, name) != Some(j)
    ensures TargetIndex(cs, name) != j
  {
  }

  lemma CountNamedAppend(cs: seq<Collection>, c: Collection, name: string)
    ensures CountNamed(cs + [c], name) == CountNamed(cs, name) + (if c.name == Some(name) then 1 else 0)
  {
    assert (cs + [c])[..|cs|] == cs;
  }

  /**
   * Ensuring a name makes at least one collection carry it and never adds a
   * second: with at most one carrier before, there is exactly one after.
   */
  lemma EnsureCount(cs: seq<Collection>, name: string)
    ensures CountNamed(EnsureCollection(cs, name), name)
      == if CountNamed(cs, name) == 0 then 1 else CountNamed(cs, name)
    ensures CountNamed(cs, name) <= 1 ==> CountNamed(EnsureCollection(cs, name), name) == 1
  {
    if Position(cs, name).None? {
      CountNamedAppend(cs, Collection(Some(name), []), name);
    }
  }

  /** One collection with one more checksum at its end. */
  function WithHash(c: Collection, hash: Option<string>): Collection {
    c.(beatmapHashes := c.beatmapHashes + [hash])
  }

  /** The list with a checksum pushed onto the collection at index `i`. */
  function PushHashAt(cs: seq<Collection>, i: nat, hash: Option<string>): (r: seq<Collection>)
    requires i < |cs|
  {
    cs[i := WithHash(cs[i], hash)]
  }

  /** Pushing a checksum renames nothing, so every lookup finds what it found before. */
  lemma PushHashKeepsPosition(cs: seq<Collection>, i: nat, hash: Option<string>, name: string)
    requires i < |cs|
    ensures Position(PushHashAt(cs, i, hash), name) == Position(cs, name)
    ensures TargetIndex(PushHashAt(cs, i, hash), name) == TargetIndex(cs, name)
  {
    var r := PushHashAt(cs, i, hash);
    assert forall j :: 0 <= j < |cs| ==> r[j].name == cs[j].name;
  }

  /**
   * `osu_db::collection::CollectionList`: the collections, in file order, and
   * the log of every `to_file` write made so far.
   */
  class CollectionList {
    var collections: seq<Collection>
    var snapshots: seq<Snapshot>

    /** A list as `CollectionList::from_file` returns it. */
    constructor (loaded: seq<Collection>)
      ensures collections == loaded && snapshots == []
    {
      collections := loaded;
      snapshots := [];
    }

    /** `to_file(path)`: the whole list is written. */
    method ToFile(path: string)
      modifies this`snapshots
      ensures snapshots == old(snapshots) + [Snapshot(path, collections)]
    {
      snapshots := snapshots + [Snapshot(path, collections)];
    }

    /**
     * `get_or_create_collection`: returns the index of the first collection
     * named `name`, appending an empty one (and writing the list when a path
     * is given) if there is none.
     */
    method GetOrCreateCollection(name: string, path: Option<string>) returns (i: nat)
      modifies this
      ensures collections == EnsureCollection(old(collections), name)
      ensures i == TargetIndex(old(collections), name)
      ensures i < |collections| && collections[i].name == Some(name)
      ensures Position(old(collections), name).Some? ==> i == Position(old(collections), name).value
      ensures snapshots == old(snapshots)
        + (if Position(old(collections), name).None? && path.Some?
           then [Snapshot(path.value, collections)] else [])
    {
      var index := Position(collections, name);
      if index.Some? {
        return index.value;
      }
      collections := collections + [Collection(Some(name), [])];
      if path.Some? {
        ToFile(path.value);
      }
      i := |collections| - 1;
    }

    /** `beatmap_hashes.push(hash)` through the reference to collection `i`. */
    method PushHash(i: nat, hash: Option<string>)
      requires i < |collections|
      modifies this`collections
      ensures collections == PushHashAt(old(collections), i, hash)
      ensures |collections| == |old(collections)|
      ensures collections[i].beatmapHashes == old(collections[i].beatmapHashes) + [hash]
      ensures forall j :: 0 <= j < |collections| && j != i ==> collections[j] == old(collections[j])
    {
      collections := PushHashAt(collections, i, hash);
    }
  }
}
