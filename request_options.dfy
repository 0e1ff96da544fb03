/**
 * The request-option store: options keyed by the canonical name of their
 * concrete class, so that an option replaces any earlier one of its class.
 */
module RequestOptions {
  import opened JavaModel

  /** An option instance: the canonical name of its class (None for the
      anonymous and local classes, whose getCanonicalName() is null) and an
      identity telling instances of one class apart. */
  datatype RequestOption = RequestOption(canonicalName: Option<string>, instance: nat)

  type OptionStore = map<Option<string>, RequestOption>

  /** The classes of a sequence of options. */
  function KindsOf(options: seq<RequestOption>): set<Option<string>> {
    set o | o in options :: o.canonicalName
  }

  /** Every option is stored under its own class. */
  predicate KeyedByKind(store: OptionStore) {
    forall k :: k in store ==> store[k].canonicalName == k
  }

  /** The put loop of addRequestOptions, in iteration order. */
  function WithOptions(store: OptionStore, options: seq<RequestOption>): OptionStore
    decreases |options|
  {
    if options == [] then store
    else
      var last := options[|options| - 1];
      WithOptions(store, options[..|options| - 1])[last.canonicalName := last]
  }

  /** The remove loop of removeRequestOptions, in iteration order. */
  function WithoutOptions(store: OptionStore, options: seq<RequestOption>): OptionStore
    decreases |options|
  {
    if options == [] then store
    else WithoutOptions(store, options[..|options| - 1]) - {options[|options| - 1].canonicalName}
  }

  /** After adding, the store holds the old classes and the added ones. */
  lemma {:induction false} WithOptionsKeys(store: OptionStore, options: seq<RequestOption>)
    ensures WithOptions(store, options).Keys == store.Keys + KindsOf(options)
    decreases |options|
  {
    if options != [] {
      var init := options[..|options| - 1];
      WithOptionsKeys(store, init);
      assert KindsOf(options) == KindsOf(init) + {options[|options| - 1].canonicalName} by {
        assert options == init + [options[|options| - 1]];
      }
    }
  }

  /** The last option of a class wins. */
  lemma {:induction false} WithOptionsLastWins(store: OptionStore, options: seq<RequestOption>, i: int)
    requires 0 <= i < |options|
    requires forall j :: i < j < |options| ==> options[j].canonicalName != options[i].canonicalName
    ensures options[i].canonicalName in WithOptions(store, options)
    ensures WithOptions(store, options)[options[i].canonicalName] == options[i]
    decreases |options|
  {
    if i < |options| - 1 {
      WithOptionsLastWins(store, options[..|options| - 1], i);
    }
  }

  /** Classes that are not added keep their option. */
  lemma {:induction false} WithOptionsUntouched(store: OptionStore, options: seq<RequestOption>, k: Option<string>)
    requires k !in KindsOf(options) && k in store
    ensures k in WithOptions(store, options)
    ensures WithOptions(store, options)[k] == store[k]
    decreases |options|
  {
    if options != [] {
      var init := options[..|options| - 1];
      assert KindsOf(init) <= KindsOf(options);
      WithOptionsUntouched(store, init, k);
    }
  }

  /** Adding keeps every option under its own class. */
  lemma {:induction false} WithOptionsKeyedByKind(store: OptionStore, options: seq<RequestOption>)
    requires KeyedByKind(store)
    ensures KeyedByKind(WithOptions(store, options))
    decreases |options|
  {
    if options != [] {
      WithOptionsKeyedByKind(store, options[..|options| - 1]);
    }
  }

  /** The store never holds more entries than its old classes and the
      distinct classes added; from empty, exactly one per distinct class. */
  lemma WithOptionsSize(store: OptionStore, options: seq<RequestOption>)
    ensures |WithOptions(store, options)| <= |store| + |KindsOf(options)|
    ensures store == map[] ==> |WithOptions(store, options)| == |KindsOf(options)|
    ensures |KindsOf(options)| <= |options|
  {
    WithOptionsKeys(store, options);
    UnionSize(store.Keys, KindsOf(options));
    KindsBound(options);
  }

  lemma {:induction false} KindsBound(options: seq<RequestOption>)
    ensures |KindsOf(options)| <= |options|
    decreases |options|
  {
    if options != [] {
      var init := options[..|options| - 1];
      KindsBound(init);
      assert KindsOf(options) == KindsOf(init) + {options[|options| - 1].canonicalName} by {
        assert options == init + [options[|options| - 1]];
      }
    }
  }

  lemma UnionSize<T>(a: set<T>, b: set<T>)
    ensures |a + b| <= |a| + |b|
  {
  }

  /** Two options of the same class: only the second is kept. */
  lemma SameKindReplaces(store: OptionStore, first: RequestOption, second: RequestOption)
    requires first.canonicalName == second.canonicalName
    ensures WithOptions(store, [first, second]) == store[second.canonicalName := second]
  {
    assert [first, second][..1] == [first];
    assert [first][..0] == [];
    assert WithOptions(store, [first]) == store[first.canonicalName := first];
  }

  /** Removing drops exactly the classes of the given options, whichever
      instances they are; classes not present are ignored. */
  lemma {:induction false} WithoutOptionsRemovesKinds(store: OptionStore, options: seq<RequestOption>)
    ensures WithoutOptions(store, options) == store - KindsOf(options)
    decreases |options|
  {
    if options != [] {
      var init := options[..|options| - 1];
      WithoutOptionsRemovesKinds(store, init);
      assert KindsOf(options) == KindsOf(init) + {options[|options| - 1].canonicalName} by {
        assert options == init + [options[|options| - 1]];
      }
    }
  }
}
