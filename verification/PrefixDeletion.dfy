/** Deleting everything under a prefix, page by page, while the listing shrinks underneath. */
module PrefixDeletion {
  import opened Sequences
  import Lexicographic

  datatype Page = Page(contents: seq<string>, truncated: bool, nextToken: string)

  ghost predicate Increasing(keys: seq<string>) {
    forall i, j :: 0 <= i < j < |keys| ==> Lexicographic.Less(keys[i], keys[j])
  }

  predicate Under(prefix: string, key: string) {
    prefix <= key
  }

  function Outside(prefix: string): string -> bool {
    key => !Under(prefix, key)
  }

  function NotAmong(gone: seq<string>): string -> bool {
    key => key !in gone
  }

  /** What a listing looks at: keys under the prefix, after the token if there is one. */
  function ListedAfter(prefix: string, token: string): string -> bool {
    key => Under(prefix, key) && (token == "" || Lexicographic.Less(token, key))
  }

  lemma {:induction false} FilterIncreasing(p: string -> bool, keys: seq<string>)
    requires Increasing(keys)
    ensures Increasing(Filter(p, keys))
  {
    if keys != [] {
      FilterIncreasing(p, keys[1..]);
      forall i | 0 <= i < |Filter(p, keys[1..])| ensures Lexicographic.Less(keys[0], Filter(p, keys[1..])[i]) {
        FilterIn(p, keys[1..], Filter(p, keys[1..])[i]);
      }
    }
  }

  /** Deleting keys that are all under the prefix leaves the other keys as they were. */
  lemma {:induction false} OutsideUntouched(prefix: string, gone: seq<string>, keys: seq<string>)
    requires forall i :: 0 <= i < |gone| ==> Under(prefix, gone[i])
    ensures Filter(Outside(prefix), Filter(NotAmong(gone), keys)) == Filter(Outside(prefix), keys)
  {
    if keys != [] {
      OutsideUntouched(prefix, gone, keys[1..]);
    }
  }

  class Bucket {
    var keys: seq<string>

    /** The listing order: ascending keys, each at least one character long. */
    ghost predicate Valid()
      reads this
    {
      Increasing(keys) && forall i :: 0 <= i < |keys| ==> keys[i] != ""
    }

    /** One page: as many of the next keys as the server likes, but never none while some remain. */
    method ListObjects(prefix: string, token: string, maxKeys: nat) returns (page: Page)
      requires Valid() && maxKeys > 0
      ensures var listed := Filter(ListedAfter(prefix, token), keys);
              && page.contents <= listed
              && |page.contents| <= maxKeys
              && (listed != [] ==> page.contents != [])
              && (page.truncated <==> page.contents != listed)
              && (page.truncated ==> page.nextToken == page.contents[|page.contents| - 1])
    {
      var listed := Filter(ListedAfter(prefix, token), keys);
      var n: nat :| n <= |listed| && n <= maxKeys && (listed != [] ==> n > 0) by {
        assert (if listed == [] then 0 else 1) <= |listed|;
      }
      var contents := listed[..n];
      page := Page(contents, n < |listed|, if 0 < n < |listed| then contents[n - 1] else "");
    }

    method DeleteObjects(gone: seq<string>)
      requires Valid()
      modifies this
      ensures Valid() && keys == Filter(NotAmong(gone), old(keys))
    {
      FilterIncreasing(NotAmong(gone), keys);
      forall i | 0 <= i < |Filter(NotAmong(gone), keys)| ensures Filter(NotAmong(gone), keys)[i] != "" {
        FilterIn(NotAmong(gone), keys, Filter(NotAmong(gone), keys)[i]);
      }
      keys := Filter(NotAmong(gone), keys);
    }
  }

  const PAGE_LIMIT := 1000

  /** Everything under the prefix that is still there comes after the token. */
  ghost predicate RestAfterToken(prefix: string, token: string, keys: seq<string>) {
    forall i :: 0 <= i < |keys| && Under(prefix, keys[i]) ==> ListedAfter(prefix, token)(keys[i])
  }

  /** Deleting a page moves what is left past the page's last key. */
  lemma PageDeleted(prefix: string, token: string, keys: seq<string>, page: seq<string>)
    requires Increasing(keys) && RestAfterToken(prefix, token, keys)
    requires page <= Filter(ListedAfter(prefix, token), keys) && page != []
    ensures RestAfterToken(prefix, page[|page| - 1], Filter(NotAmong(page), keys))
  {
    var listed, rest := Filter(ListedAfter(prefix, token), keys), Filter(NotAmong(page), keys);
    FilterIncreasing(ListedAfter(prefix, token), keys);
    assert forall k :: 0 <= k < |page| ==> listed[k] == page[k];
    forall i | 0 <= i < |rest| && Under(prefix, rest[i])
      ensures ListedAfter(prefix, page[|page| - 1])(rest[i])
    {
      FilterIn(NotAmong(page), keys, rest[i]);
      FilterIn(ListedAfter(prefix, token), keys, rest[i]);
      var j :| 0 <= j < |listed| && listed[j] == rest[i];
      assert j >= |page|;
    }
  }

  lemma {:induction false} DeletingListedShrinks(gone: seq<string>, keys: seq<string>)
    requires exists x :: x in gone && x in keys
    ensures |Filter(NotAmong(gone), keys)| < |keys|
  {
    FilterShorter(NotAmong(gone), keys[1..]);
    if keys[0] !in gone {
      var x :| x in gone && x in keys;
      InTail(keys, x);
      DeletingListedShrinks(gone, keys[1..]);
    }
  }

  /** When the last page held everything listed, only keys outside the prefix are left. */
  lemma LastPageDeleted(prefix: string, token: string, keys: seq<string>)
    requires RestAfterToken(prefix, token, keys)
    ensures var rest := Filter(NotAmong(Filter(ListedAfter(prefix, token), keys)), keys);
            rest == Filter(Outside(prefix), rest)
  {
    var listed := Filter(ListedAfter(prefix, token), keys);
    var rest := Filter(NotAmong(listed), keys);
    forall i | 0 <= i < |rest| ensures Outside(prefix)(rest[i]) {
      FilterIn(NotAmong(listed), keys, rest[i]);
      FilterIn(ListedAfter(prefix, token), keys, rest[i]);
    }
    FilterAll(Outside(prefix), rest);
  }

  /** Nothing under the prefix is left. */
  ghost predicate Cleared(prefix: string, keys: seq<string>) {
    keys == Filter(Outside(prefix), keys)
  }

  lemma PageStep(prefix: string, token: string, keys: seq<string>, page: Page)
    requires Increasing(keys) && RestAfterToken(prefix, token, keys)
    requires var listed := Filter(ListedAfter(prefix, token), keys);
             page.contents <= listed && (page.truncated <==> page.contents != listed)
                 && (listed != [] ==> page.contents != [])
    ensures var rest := Filter(NotAmong(page.contents), keys);
            && Filter(Outside(prefix), rest) == Filter(Outside(prefix), keys)
            && (page.contents != [] ==> page.contents[|page.contents| - 1] in keys && |rest| < |keys|
                                        && RestAfterToken(prefix, page.contents[|page.contents| - 1], rest))
            && (!page.truncated ==> Cleared(prefix, rest))
  {
    forall i | 0 <= i < |page.contents| ensures page.contents[i] in keys && Under(prefix, page.contents[i]) {
      FilterIn(ListedAfter(prefix, token), keys, page.contents[i]);
    }
    OutsideUntouched(prefix, page.contents, keys);
    if page.contents != [] {
      PageDeleted(prefix, token, keys, page.contents);
      assert page.contents[0] in keys;
      DeletingListedShrinks(page.contents, keys);
    }
    if !page.truncated {
      LastPageDeleted(prefix, token, keys);
    }
  }

  /** One listing and the deletion of what it listed. */
  method DeletePage(bucket: Bucket, prefix: string, token: string) returns (page: Page)
    requires bucket.Valid() && RestAfterToken(prefix, token, bucket.keys)
    modifies bucket
    ensures bucket.Valid()
    ensures Filter(Outside(prefix), bucket.keys) == Filter(Outside(prefix), old(bucket.keys))
    ensures page.truncated ==>
              && page.nextToken != "" && |bucket.keys| < |old(bucket.keys)|
              && RestAfterToken(prefix, page.nextToken, bucket.keys)
    ensures !page.truncated ==> Cleared(prefix, bucket.keys)
  {
    page := bucket.ListObjects(prefix, token, PAGE_LIMIT);
    hide Filter;
    hide RestAfterToken;
    hide Cleared;
    PageStep(prefix, token, bucket.keys, page);
    if page.contents != [] {
      bucket.DeleteObjects(page.contents);
    } else {
      FilterAll(NotAmong([]), bucket.keys);
    }
  }

  /** `_delete_prefix`: terminates with exactly the keys outside the prefix, in place. */
  method DeletePrefix(bucket: Bucket, prefix: string)
    requires bucket.Valid()
    modifies bucket
    ensures bucket.Valid()
    ensures bucket.keys == Filter(Outside(prefix), old(bucket.keys))
  {
    var token := "";
    while true
      invariant bucket.Valid() && RestAfterToken(prefix, token, bucket.keys)
      invariant Filter(Outside(prefix), bucket.keys) == Filter(Outside(prefix), old(bucket.keys))
      decreases |bucket.keys|
    {
      var page := DeletePage(bucket, prefix, token);
      if !page.truncated {
        break;
      }
      token := page.nextToken;
      if token == "" {
        break;
      }
    }
  }

  /** `_prefix_is_empty`: one key is enough to look for. */
  method PrefixIsEmpty(bucket: Bucket, prefix: string) returns (empty: bool)
    requires bucket.Valid()
    ensures empty <==> forall i :: 0 <= i < |bucket.keys| ==> !Under(prefix, bucket.keys[i])
  {
    var page := bucket.ListObjects(prefix, "", 1);
    empty := page.contents == [];
    forall i | 0 <= i < |bucket.keys|
      ensures bucket.keys[i] in Filter(ListedAfter(prefix, ""), bucket.keys) <==> Under(prefix, bucket.keys[i])
    {
      FilterIn(ListedAfter(prefix, ""), bucket.keys, bucket.keys[i]);
    }
    if page.contents != [] {
      FilterIn(ListedAfter(prefix, ""), bucket.keys, page.contents[0]);
    }
  }

  /** After deletion the emptiness check passes. */
  method Teardown(bucket: Bucket, prefix: string) returns (empty: bool)
    requires bucket.Valid()
    modifies bucket
    ensures bucket.Valid() && empty
    ensures bucket.keys == Filter(Outside(prefix), old(bucket.keys))
  {
    DeletePrefix(bucket, prefix);
    empty := PrefixIsEmpty(bucket, prefix);
    forall i | 0 <= i < |bucket.keys| ensures !Under(prefix, bucket.keys[i]) {
      FilterIn(Outside(prefix), old(bucket.keys), bucket.keys[i]);
    }
  }
}
