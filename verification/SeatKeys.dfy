/** The texts the seat protocol exchanges: the trip-and-date key of a stream entry, and the canonical form of a
    seat map whose digest decides whether seats changed. The digest is taken to be injective. */
module SeatKeys {
  import opened Model
  import opened Ordering

  // ---- Trip and date -----------------------------------------------------------------------------

  function SeatTripDate(key: TripKey): string {
    key.tripID + ":" + key.date
  }

  /** What a stream entry names: the text splits at its last colon into a trip and one of the valid dates. */
  ghost predicate Names(s: string, dates: set<string>, key: TripKey) {
    s == SeatTripDate(key) && ':' !in key.date && key.tripID != "" && key.date in dates
  }

  /** Scan backwards for the last colon; the trip must be non-empty and the date valid. */
  method ParseSeatTripDate(s: string, dates: set<string>) returns (key: Option<TripKey>)
    ensures key == Parse(s, dates)
  {
    var i := |s| - 1;
    while i >= 0
      invariant -1 <= i < |s|
      invariant ':' !in s[i + 1..]
    {
      if s[i] == ':' {
        LastColonIs(s, i);
        var tripID, date := s[..i], s[i + 1..];
        if tripID == "" || date !in dates {
          return None;
        }
        return Some(TripKey(tripID, date));
      }
      i := i - 1;
    }
    assert s[0..] == s;
    NoColon(s);
    return None;
  }

  /** Position of the last colon, -1 without one. */
  function LastColon(s: string): (i: int)
    ensures -1 <= i < |s|
  {
    if s == [] then -1
    else if s[|s| - 1] == ':' then |s| - 1
    else LastColon(s[..|s| - 1])
  }

  function Parse(s: string, dates: set<string>): Option<TripKey> {
    var i := LastColon(s);
    if i <= 0 || s[i + 1..] !in dates then None else Some(TripKey(s[..i], s[i + 1..]))
  }

  lemma {:induction false} LastColonIs(s: string, i: nat)
    requires i < |s| && s[i] == ':' && ':' !in s[i + 1..]
    ensures LastColon(s) == i
  {
    if i < |s| - 1 {
      assert s[i + 1..][|s| - 2 - i] == s[|s| - 1];
      assert s[i + 1..][..|s| - 2 - i] == s[..|s| - 1][i + 1..];
      LastColonIs(s[..|s| - 1], i);
    }
  }

  lemma {:induction false} NoColon(s: string)
    requires ':' !in s
    ensures LastColon(s) == -1
  {
    if s != [] {
      assert s[|s| - 1] in s;
      NoColon(s[..|s| - 1]);
    }
  }

  lemma {:induction false} AfterLastColon(s: string)
    ensures LastColon(s) >= 0 ==> s[LastColon(s)] == ':' && ':' !in s[LastColon(s) + 1..]
  {
    if s != [] && s[|s| - 1] != ':' {
      AfterLastColon(s[..|s| - 1]);
      var i := LastColon(s);
      if i >= 0 {
        assert s[i + 1..] == s[..|s| - 1][i + 1..] + [s[|s| - 1]];
      }
    }
  }

  /** Dates have no colon, so a text names a key exactly when that is what parsing it gives: keys round-trip
      even when the trip's own identifier contains colons. */
  lemma ParsesToWhatItNames(s: string, dates: set<string>, key: TripKey)
    requires forall d :: d in dates ==> ':' !in d
    ensures Parse(s, dates) == Some(key) <==> Names(s, dates, key)
  {
    hide LastColon;
    if Parse(s, dates) == Some(key) {
      ParsedIsNamed(s, dates, key);
    }
    if Names(s, dates, key) {
      NamedIsParsed(s, dates, key);
    }
  }

  lemma ParsedIsNamed(s: string, dates: set<string>, key: TripKey)
    requires Parse(s, dates) == Some(key)
    ensures Names(s, dates, key)
  {
    hide LastColon;
    AfterLastColon(s);
    var i := LastColon(s);
    assert s == s[..i] + [s[i]] + s[i + 1..];
  }

  lemma NamedIsParsed(s: string, dates: set<string>, key: TripKey)
    requires Names(s, dates, key)
    ensures Parse(s, dates) == Some(key)
  {
    hide LastColon;
    assert s[|key.tripID|] == ':' && s[|key.tripID| + 1..] == key.date && s[..|key.tripID|] == key.tripID;
    LastColonIs(s, |key.tripID|);
  }

  // ---- Decimal numbers ---------------------------------------------------------------------------

  function Digits(n: nat): (s: string)
    ensures s != [] && forall i :: 0 <= i < |s| ==> '0' <= s[i] <= '9'
  {
    (if n < 10 then [] else Digits(n / 10)) + [('0' as int + n % 10) as char]
  }

  function Value(s: string): int {
    if s == [] then 0 else 10 * Value(s[..|s| - 1]) + s[|s| - 1] as int - '0' as int
  }

  function Decimal(v: int): string {
    if v < 0 then "-" + Digits(-v) else Digits(v)
  }

  lemma {:induction false} DigitsValue(n: nat)
    ensures Value(Digits(n)) == n
  {
    var s := Digits(n);
    if n < 10 {
      assert s[..|s| - 1] == [];
    } else {
      assert s[..|s| - 1] == Digits(n / 10);
      DigitsValue(n / 10);
    }
  }

  lemma DigitsRead(m: nat, n: nat)
    requires Digits(m) == Digits(n)
    ensures m == n
  {
    hide Digits, Value;
    DigitsValue(m);
    DigitsValue(n);
  }

  lemma DecimalReads(v: int, w: int)
    requires Decimal(v) == Decimal(w)
    ensures v == w
  {
    hide Digits;
    assert (v < 0) == (Decimal(v)[0] == '-') && (w < 0) == (Decimal(w)[0] == '-');
    if v < 0 {
      assert Decimal(v)[1..] == Digits(-v) && Decimal(w)[1..] == Digits(-w);
      DigitsRead(-v, -w);
    } else {
      DigitsRead(v, w);
    }
  }

  lemma DecimalIsClean(v: int)
    ensures ':' !in Decimal(v) && ',' !in Decimal(v)
  {
  }

  // ---- The canonical form of a seat map ----------------------------------------------------------

  type Counts = map<string, int>

  function Item(k: string, v: int): string {
    k + ":" + Decimal(v) + ","
  }

  function Items(m: Counts, keys: seq<string>): string
    requires forall k :: k in keys ==> k in m
  {
    if keys == [] then "" else Item(keys[0], m[keys[0]]) + Items(m, keys[1..])
  }

  ghost predicate InOrder(m: Counts, keys: seq<string>) {
    SortedBy(keys, LexLe) && Distinct(keys) && forall k :: k in keys <==> k in m
  }

  ghost predicate IsCanonical(m: Counts, text: string) {
    exists keys :: InOrder(m, keys) && text == Items(m, keys)
  }

  /** The text fed to the digest, whatever order the map is ranged over in. */
  method CanonicalText(m: Counts) returns (text: string)
    ensures IsCanonical(m, text)
  {
    hide InOrder, Sort, Items, Item, LexLe;
    var range := Range(m.Keys);
    var keys := Sort(range, LexLe);
    InOrderSort(m, range);
    KeysOf(m, keys);
    text := "";
    NoItems(m);
    for i := 0 to |keys|
      invariant text == Items(m, keys[..i])
    {
      OneMoreItem(m, keys, i);
      text := text + Item(keys[i], m[keys[i]]);
    }
    assert keys[..|keys|] == keys;
  }

  lemma KeysOf(m: Counts, keys: seq<string>)
    requires InOrder(m, keys)
    ensures forall k :: k in keys <==> k in m
  {
  }

  lemma NoItems(m: Counts)
    ensures Items(m, []) == ""
  {
  }

  lemma OneMoreItem(m: Counts, keys: seq<string>, i: nat)
    requires i < |keys| && forall k :: k in keys ==> k in m
    ensures Items(m, keys[..i + 1]) == Items(m, keys[..i]) + Item(keys[i], m[keys[i]])
  {
    assert keys[..i + 1] == keys[..i] + [keys[i]];
    ItemsAppend(m, keys[..i], keys[i]);
  }

  lemma {:induction false} ItemsAppend(m: Counts, keys: seq<string>, k: string)
    requires k in m && forall x :: x in keys ==> x in m
    ensures Items(m, keys + [k]) == Items(m, keys) + Item(k, m[k])
  {
    hide Item;
    var more := keys + [k];
    if keys == [] {
      assert more[1..] == [] && Items(m, []) == "";
      assert Items(m, more) == Item(k, m[k]) + Items(m, more[1..]);
    } else {
      assert more[1..] == keys[1..] + [k];
      ItemsAppend(m, keys[1..], k);
      Associates(Item(keys[0], m[keys[0]]), Items(m, keys[1..]), Item(k, m[k]));
    }
  }

  lemma Associates(a: string, b: string, c: string)
    ensures (a + b) + c == a + (b + c)
  {
  }

  lemma InOrderSort(m: Counts, range: seq<string>)
    requires Distinct(range) && forall k :: k in range <==> k in m
    ensures InOrder(m, Sort(range, LexLe))
  {
    LexOrder();
    SortSorts(range, LexLe);
    PermutationDistinct(range, Sort(range, LexLe));
    SameElements(Sort(range, LexLe), range);
  }

  /** The characters that end a name and end an item. */
  const MARKS := {':', ','}

  /** A class name the format can carry: it does not hold both marks. */
  predicate CleanName(k: string) {
    ':' !in k || ',' !in k
  }

  predicate Clean(m: Counts) {
    forall k :: k in m ==> CleanName(k)
  }

  lemma Until(c: char, x: string, y: string, s: string, t: string)
    requires c !in x && c !in y && x + [c] + s == y + [c] + t
    ensures x == y && s == t
  {
    var u, v := x + [c] + s, y + [c] + t;
    assert u[|x|] == c && v[|y|] == c;
    assert forall i :: 0 <= i < |y| ==> v[i] == y[i];
    assert forall i :: 0 <= i < |x| ==> u[i] == x[i];
    assert x == u[..|x|] && y == v[..|y|] && s == u[|x| + 1..] && t == v[|y| + 1..];
  }

  lemma UntilLast(c: char, x: string, y: string, s: string, t: string)
    requires c !in s && c !in t && x + [c] + s == y + [c] + t
    ensures x == y && s == t
  {
    var u, v := x + [c] + s, y + [c] + t;
    assert u[|x|] == c && v[|y|] == c;
    assert forall i :: 0 <= i < |s| ==> u[|x| + 1 + i] == s[i];
    assert forall i :: 0 <= i < |t| ==> v[|y| + 1 + i] == t[i];
    assert x == u[..|x|] && y == v[..|y|] && s == u[|x| + 1..] && t == v[|y| + 1..];
  }

  /** Without colons in names: the first colon ends the name. */
  lemma ItemReadsByColon(k: string, v: int, k': string, v': int, s: string, t: string)
    requires ':' !in k && ':' !in k' && Item(k, v) + s == Item(k', v') + t
    ensures k == k' && v == v' && s == t
  {
    hide Decimal;
    var a, b := Decimal(v) + [','] + s, Decimal(v') + [','] + t;
    assert Item(k, v) + s == k + [':'] + a && Item(k', v') + t == k' + [':'] + b;
    Until(':', k, k', a, b);
    DecimalIsClean(v);
    DecimalIsClean(v');
    Until(',', Decimal(v), Decimal(v'), s, t);
    DecimalReads(v, v');
  }

  /** Without commas in names: the first comma ends the item, and its last colon ends the name. */
  lemma ItemReadsByComma(k: string, v: int, k': string, v': int, s: string, t: string)
    requires ',' !in k && ',' !in k' && Item(k, v) + s == Item(k', v') + t
    ensures k == k' && v == v' && s == t
  {
    hide Decimal;
    DecimalIsClean(v);
    DecimalIsClean(v');
    var a, b := k + [':'] + Decimal(v), k' + [':'] + Decimal(v');
    assert Item(k, v) + s == a + [','] + s && Item(k', v') + t == b + [','] + t;
    Until(',', a, b, s, t);
    UntilLast(':', k, k', Decimal(v), Decimal(v'));
    DecimalReads(v, v');
  }

  /** A name without colons in front of an item of a name without commas has no comma either: the first comma
      of that item comes after a colon. */
  lemma NoCommaBeforeColon(k: string, v: int, k': string, v': int, s: string, t: string)
    requires ':' !in k && ',' !in k' && Item(k, v) + s == Item(k', v') + t
    ensures ',' !in k
  {
    hide Decimal;
    DecimalIsClean(v');
    var u, w := Item(k, v) + s, Item(k', v') + t;
    assert u[|k|] == ':' && w[|k'|] == ':';
    assert forall i :: 0 <= i < |k| ==> u[i] == k[i];
    assert forall i :: 0 <= i < |k'| ==> w[i] == k'[i];
    assert |k| <= |k'|;
  }

  /** Each item reads back from the front of any text when neither name holds both marks. */
  lemma ItemReads(k: string, v: int, k': string, v': int, s: string, t: string)
    requires CleanName(k) && CleanName(k') && Item(k, v) + s == Item(k', v') + t
    ensures k == k' && v == v' && s == t
  {
    hide Item;
    if ':' !in k && ':' !in k' {
      ItemReadsByColon(k, v, k', v', s, t);
    } else {
      if ':' !in k {
        NoCommaBeforeColon(k, v, k', v', s, t);
      }
      if ':' !in k' {
        NoCommaBeforeColon(k', v', k, v, t, s);
      }
      ItemReadsByComma(k, v, k', v', s, t);
    }
  }

  lemma {:induction false} ItemsRead(m: Counts, n: Counts, keys: seq<string>, keys': seq<string>)
    requires Clean(m) && Clean(n)
    requires (forall k :: k in keys ==> k in m) && forall k :: k in keys' ==> k in n
    requires Items(m, keys) == Items(n, keys')
    ensures keys == keys' && forall k :: k in keys ==> m[k] == n[k]
  {
    hide Item, Clean;
    SomeItems(m, keys);
    SomeItems(n, keys');
    if keys != [] {
      CleanKey(m, keys[0]);
      CleanKey(n, keys'[0]);
      ItemReads(keys[0], m[keys[0]], keys'[0], n[keys'[0]], Items(m, keys[1..]), Items(n, keys'[1..]));
      ItemsRead(m, n, keys[1..], keys'[1..]);
      assert keys == [keys[0]] + keys[1..] && keys' == [keys'[0]] + keys'[1..];
    }
  }

  lemma SomeItems(m: Counts, keys: seq<string>)
    requires forall k :: k in keys ==> k in m
    ensures keys != [] <==> Items(m, keys) != ""
  {
    if keys != [] {
      assert |Item(keys[0], m[keys[0]])| > 0;
    }
  }

  lemma CleanKey(m: Counts, k: string)
    requires Clean(m) && k in m
    ensures CleanName(k)
  {
  }

  lemma OneOrder(m: Counts, a: seq<string>, b: seq<string>)
    requires InOrder(m, a) && InOrder(m, b)
    ensures a == b
  {
    LexOrder();
    forall x
      ensures multiset(a)[x] == multiset(b)[x]
    {
      if x in a {
        var i :| 0 <= i < |a| && a[i] == x;
        var j :| 0 <= j < |b| && b[j] == x;
        OnceInMultiset(a, i);
        OnceInMultiset(b, j);
      }
    }
    SortIsCanonical(a, b, LexLe);
  }

  /** As long as no class name holds both marks, two seat maps have the same canonical form exactly when they are
      equal. */
  lemma CanonicalIdentifies(m: Counts, n: Counts, x: string, y: string)
    requires Clean(m) && Clean(n) && IsCanonical(m, x) && IsCanonical(n, y)
    ensures x == y <==> m == n
  {
    hide Items, SortedBy, Distinct;
    var a :| InOrder(m, a) && x == Items(m, a);
    var b :| InOrder(n, b) && y == Items(n, b);
    if x == y {
      ItemsRead(m, n, a, b);
      assert forall k :: k in m <==> k in n;
    }
    if m == n {
      OneOrder(m, a, b);
    }
  }

  /** With both marks in one class name, different seats can look unchanged. */
  lemma SeparatorsConfuse(a: string, b: string, v: int, w: int)
    requires a != [] && b != [] && a[0] < b[0]
    ensures var m, n := map[a := v, b := w], map[a + ":" + Decimal(v) + "," + b := w];
            m != n && exists x :: IsCanonical(m, x) && IsCanonical(n, x)
  {
    hide Decimal, Items, LexLe;
    var c := a + ":" + Decimal(v) + "," + b;
    var m, n := map[a := v, b := w], map[c := w];
    assert a in m && a !in n by {
      assert |c| > |a|;
    }
    TwoClasses(a, b, v, w);
    OneClass(c, w);
    assert Item(a, v) + Item(b, w) == Item(c, w);
  }

  /** Class names that use no marks but these. */
  predicate NamesUse(marks: set<char>, m: Counts) {
    forall k :: k in m ==> forall c :: c in k && c in MARKS ==> c in marks
  }

  ghost predicate TextIdentifies(marks: set<char>) {
    forall m, n, x :: NamesUse(marks, m) && NamesUse(marks, n) && IsCanonical(m, x) && IsCanonical(n, x) ==> m == n
  }

  /** The canonical form identifies a seat map exactly when class names may not contain both marks. */
  lemma SafeMarks(marks: set<char>)
    ensures TextIdentifies(marks) <==> !(':' in marks && ',' in marks)
  {
    hide IsCanonical;
    if ':' in marks && ',' in marks {
      SeparatorsConfuse("a", "b", 0, 0);
      var m, n := map["a" := 0, "b" := 0], map["a" + ":" + Decimal(0) + "," + "b" := 0];
      var x :| IsCanonical(m, x) && IsCanonical(n, x);
      assert NamesUse(marks, m) && NamesUse(marks, n);
    } else {
      forall m, n, x | NamesUse(marks, m) && NamesUse(marks, n) && IsCanonical(m, x) && IsCanonical(n, x)
        ensures m == n
      {
        CleanNames(marks, m);
        CleanNames(marks, n);
        CanonicalIdentifies(m, n, x, x);
      }
    }
  }

  lemma CleanNames(marks: set<char>, m: Counts)
    requires NamesUse(marks, m) && !(':' in marks && ',' in marks)
    ensures Clean(m)
  {
  }

  lemma TwoClasses(a: string, b: string, v: int, w: int)
    requires a != [] && b != [] && a[0] < b[0]
    ensures IsCanonical(map[a := v, b := w], Item(a, v) + Item(b, w))
  {
    hide Item;
    var m := map[a := v, b := w];
    assert InOrder(m, [a, b]);
    assert [a, b][1..] == [b] && [b][1..] == [];
    assert Items(m, [b]) == Item(b, w) + "";
  }

  lemma OneClass(c: string, w: int)
    ensures IsCanonical(map[c := w], Item(c, w))
  {
    hide Item;
    assert InOrder(map[c := w], [c]) && [c][1..] == [];
    assert Items(map[c := w], [c]) == Item(c, w) + "";
  }
}
