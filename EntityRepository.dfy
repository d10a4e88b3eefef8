/**
 * The ORM-independent part of the abstract entity repository: the current
 * locale, the query alias derived from the entity's class name, the lookup
 * criteria built from a request, and the id-to-label map for select lists.
 *
 * The ORM's `findOneBy`, `findAll`, class metadata and property accessor are
 * inputs: a lookup function, a sequence of entities, a metadata value and a
 * value-reading function. `Helper::snake` is a function-typed argument.
 */
module EntityRepository {
  import opened Wrappers
  import Indexing

  datatype RepositoryError = EntityNotFound(entityName: string)

  /** The class metadata the repository consults: identifier field and mapped fields. */
  datatype ClassMetadata = ClassMetadata(identifier: string, fields: set<string>)

  /** No backslash at positions `from` up to the end of `s`. */
  ghost predicate NoBackslashFrom(s: string, from: int) {
    forall j :: from <= j < |s| && 0 <= j ==> s[j] != '\\'
  }

  /** What `explode('\\', s)` followed by `end()` yields: the text after the last backslash. */
  function LastSegment(s: string): (r: string)
    ensures |r| <= |s| && r == s[|s| - |r|..]
    ensures NoBackslashFrom(s, |s| - |r|)
    ensures |r| < |s| ==> s[|s| - |r| - 1] == '\\'
  {
    if s == [] then []
    else if s[|s| - 1] == '\\' then []
    else LastSegment(s[..|s| - 1]) + [s[|s| - 1]]
  }

  /** The segment starts right after the last backslash, or is all of `s` when there is none. */
  lemma LastSegmentAfterLastBackslash(s: string)
    ensures NoBackslashFrom(s, 0) ==> LastSegment(s) == s
    ensures forall k :: 0 <= k < |s| && s[k] == '\\' && NoBackslashFrom(s, k + 1) ==> LastSegment(s) == s[k + 1..]
  {
  }

  /**
   * The lookup criteria of findResource: the request's `slug` attribute if it
   * has one, otherwise its `id` attribute, otherwise nothing; the caller's
   * criteria are merged over that and win on a shared key.
   */
  function Criteria<V>(attributes: map<string, V>, criteria: map<string, V>): (c: map<string, V>)
    ensures c.Keys == criteria.Keys + (if "slug" in attributes then {"slug"}
                                       else if "id" in attributes then {"id"} else {})
    ensures forall k :: k in criteria ==> c[k] == criteria[k]
    ensures "slug" in attributes && "slug" !in criteria ==> c["slug"] == attributes["slug"]
    ensures "slug" !in attributes && "id" in attributes && "id" !in criteria ==> c["id"] == attributes["id"]
  {
    var params := if "slug" in attributes then map["slug" := attributes["slug"]]
                  else if "id" in attributes then map["id" := attributes["id"]]
                  else map[];
    params + criteria
  }

  class AbstractEntityRepository {
    /** The class name of the managed entity, namespace included. */
    const entityName: string
    var currentLocale: Option<string>

    constructor (entityName: string)
      ensures this.entityName == entityName && currentLocale == None
    {
      this.entityName := entityName;
      currentLocale := None;
    }

    method SetCurrentLocale(locale: Option<string>)
      modifies this`currentLocale
      ensures currentLocale == locale
    {
      currentLocale := locale;
    }

    method GetCurrentLocale() returns (locale: Option<string>)
      ensures locale == currentLocale
    {
      locale := currentLocale;
    }

    /** The query alias: `snake` of the class name without its namespace. */
    function GetAlias(snake: string -> string): (alias: string)
      ensures NoBackslashFrom(entityName, 0) ==> alias == snake(entityName)
      ensures forall k :: 0 <= k < |entityName| && entityName[k] == '\\' && NoBackslashFrom(entityName, k + 1)
                ==> alias == snake(entityName[k + 1..])
    {
      LastSegmentAfterLastBackslash(entityName);
      snake(LastSegment(entityName))
    }

    /**
     * Looks up one entity by the criteria built from the request attributes
     * and the caller's criteria; fails with EntityNotFound when there is none.
     */
    method FindResource<E, V>(attributes: map<string, V>, criteria: map<string, V>,
                              findOneBy: map<string, V> -> Option<E>)
      returns (r: Result<E, RepositoryError>)
      ensures r.Failure? <==> findOneBy(Criteria(attributes, criteria)).None?
      ensures r.Failure? ==> r.error == EntityNotFound(entityName)
      ensures r.Success? ==> r.value == findOneBy(Criteria(attributes, criteria)).value
    {
      var params: map<string, V> := map[];
      if "id" in attributes {
        params := map["id" := attributes["id"]];
      }
      if "slug" in attributes {
        params := map["slug" := attributes["slug"]];
      }
      var merged := params + criteria;
      var resource := findOneBy(merged);
      if resource.None? {
        return Failure(EntityNotFound(entityName));
      }
      return Success(resource.value);
    }

    /**
     * The id-to-label map of all entities, reading each entity's identifier
     * field and label field with `getValue`. The label field falls back to
     * "" when the metadata does not map it; later entities win on a shared id.
     */
    method GetCollectionToSelect<E, V(==)>(collection: seq<E>, metadata: ClassMetadata,
                                          getValue: (E, string) -> V, labelField: string := "name")
      returns (select: map<V, V>)
      ensures forall v :: v in select <==>
                exists i :: 0 <= i < |collection| && getValue(collection[i], metadata.identifier) == v
      ensures var field := if labelField in metadata.fields then labelField else "";
              forall i :: 0 <= i < |collection|
                && (forall j :: i < j < |collection| ==>
                      getValue(collection[j], metadata.identifier) != getValue(collection[i], metadata.identifier))
                ==> getValue(collection[i], metadata.identifier) in select
                    && select[getValue(collection[i], metadata.identifier)] == getValue(collection[i], field)
    {
      var identifier := metadata.identifier;
      var field := if labelField in metadata.fields then labelField else "";
      var idOf := (e: E) => getValue(e, identifier);
      var labelOf := (e: E) => getValue(e, field);
      select := map[];
      for i := 0 to |collection|
        invariant Indexing.IndexBy(select, collection[i..], idOf, labelOf)
               == Indexing.IndexBy(map[], collection, idOf, labelOf)
      {
        Indexing.IndexByStep(select, collection, idOf, labelOf, i);
        var id := getValue(collection[i], identifier);
        var itemLabel := getValue(collection[i], field);
        select := select[id := itemLabel];
      }
      Indexing.IndexByKeys(map[], collection, idOf, labelOf);
      forall i | 0 <= i < |collection| && Indexing.IsLastWithKey(collection, idOf, i)
        ensures idOf(collection[i]) in select && select[idOf(collection[i])] == labelOf(collection[i])
      {
        Indexing.IndexByLastWins(map[], collection, idOf, labelOf, i);
      }
    }
  }
}
