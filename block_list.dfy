/**
 * The blocked-app table of AppBlockerService: how a fetched set of
 * documents becomes the list (the success listener of fetchBlockedApps),
 * and the normalised membership test isAppBlocked.
 */
module BlockList {
  import opened Wrappers
  import opened PackageName

  /** Each entry's normalised key, in table order; every key is already normalised. */
  function NormalizedEntries(entries: seq<string>): (keys: seq<string>)
    ensures |keys| == |entries|
    ensures forall i :: 0 <= i < |entries| ==> keys[i] == Normalize(entries[i])
    ensures forall i :: 0 <= i < |keys| ==> Normalize(keys[i]) == keys[i]
  {
    forall i | 0 <= i < |entries| ensures Normalize(Normalize(entries[i])) == Normalize(entries[i]) {
      NormalizeIdempotent(entries[i]);
    }
    seq(|entries|, i requires 0 <= i < |entries| => Normalize(entries[i]))
  }

  /**
   * isAppBlocked: a null package is never blocked; otherwise the package is
   * blocked exactly when some entry has the same normalised key.
   */
  function IsAppBlocked(entries: seq<string>, packageName: Option<string>): (r: bool)
    ensures r <==> packageName.Some?
                   && exists i :: 0 <= i < |entries| && Normalize(entries[i]) == Normalize(packageName.value)
  {
    var keys := NormalizedEntries(entries);
    assert forall i :: 0 <= i < |entries| ==> keys[i] == Normalize(entries[i]);
    packageName.Some? && Normalize(packageName.value) in keys
  }

  /** Every entry of the table blocks its own package name. */
  lemma EntryIsBlocked(entries: seq<string>, i: nat)
    requires i < |entries|
    ensures IsAppBlocked(entries, Some(entries[i]))
  {
  }

  /** The lookup gives the same answer for a name and for its normalised key. */
  lemma IsAppBlockedNormalized(entries: seq<string>, name: string)
    ensures IsAppBlocked(entries, Some(name)) == IsAppBlocked(entries, Some(Normalize(name)))
  {
    NormalizeIdempotent(name);
  }

  /**
   * The lookup ignores surrounding whitespace and the case of ASCII letters:
   * `p + s + q` and `t` give the same answer when p and q are whitespace and
   * s and t agree after lowercasing.
   */
  lemma IsAppBlockedIgnoresCaseAndPadding(entries: seq<string>, p: string, s: string, q: string, t: string)
    requires AllWhitespace(p) && AllWhitespace(q) && Lower(s) == Lower(t)
    ensures IsAppBlocked(entries, Some(p + s + q)) == IsAppBlocked(entries, Some(t))
  {
    NormalizeIgnoresPadding(p, s, q);
    NormalizeIgnoresCase(s, t);
  }

  /** `"  Foo.Bar "` is blocked by an entry `"foo.bar"`, and the other way round. */
  lemma PaddedMixedCaseExample()
    ensures IsAppBlocked(["foo.bar"], Some("  Foo.Bar "))
    ensures IsAppBlocked(["  Foo.Bar "], Some("foo.bar"))
  {
    assert AllWhitespace("  ") && AllWhitespace(" ");
    assert "  Foo.Bar " == "  " + "Foo.Bar" + " ";
    assert Lower("Foo.Bar") == Lower("foo.bar");
    IsAppBlockedIgnoresCaseAndPadding(["foo.bar"], "  ", "Foo.Bar", " ", "foo.bar");
    EntryIsBlocked(["foo.bar"], 0);
    NormalizeIgnoresPadding("  ", "Foo.Bar", " ");
    NormalizeIgnoresCase("Foo.Bar", "foo.bar");
    assert Normalize(["  Foo.Bar "][0]) == Normalize("foo.bar");
  }

  /**
   * The names the fetch success listener keeps, in document order: the
   * `packageName` field of each document, skipping those that are null or
   * empty.
   */
  function PackageNames(docs: seq<Option<string>>): (names: seq<string>)
    ensures |names| <= |docs|
    ensures forall i :: 0 <= i < |names| ==> names[i] != ""
  {
    if docs == [] then []
    else
      var last := docs[|docs| - 1];
      PackageNames(docs[..|docs| - 1]) + (if last.Some? && last.value != "" then [last.value] else [])
  }

  /** A name is kept exactly when it is non-empty and some document carries it. */
  lemma {:induction false} PackageNamesMembers(docs: seq<Option<string>>, name: string)
    ensures name in PackageNames(docs) <==> name != "" && Some(name) in docs
  {
    if docs != [] {
      var init := docs[..|docs| - 1];
      PackageNamesMembers(init, name);
      assert docs == init + [docs[|docs| - 1]];
    }
  }

  /** Keeping names commutes with concatenating documents, so order is preserved. */
  lemma {:induction false} PackageNamesAppend(a: seq<Option<string>>, b: seq<Option<string>>)
    ensures PackageNames(a + b) == PackageNames(a) + PackageNames(b)
  {
    if b == [] {
      assert a + b == a;
    } else {
      var init := b[..|b| - 1];
      assert (a + b)[..|a + b| - 1] == a + init;
      assert (a + b)[|a + b| - 1] == b[|b| - 1];
      PackageNamesAppend(a, init);
    }
  }

  /** When every document has a non-empty name, all of them are kept, in order. */
  lemma {:induction false} PackageNamesAllPresent(docs: seq<Option<string>>)
    requires forall i :: 0 <= i < |docs| ==> docs[i].Some? && docs[i].value != ""
    ensures |PackageNames(docs)| == |docs|
    ensures forall i :: 0 <= i < |docs| ==> PackageNames(docs)[i] == docs[i].value
  {
    if docs != [] {
      PackageNamesAllPresent(docs[..|docs| - 1]);
    }
  }
}
