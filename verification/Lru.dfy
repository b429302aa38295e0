/** The bounded cache of certificates, and what "least recently used" means for a history of touches. */
module Lru {
  import opened Common

  /** A certificate: the name it was made for, and the generation that made it. */
  datatype Cert = Cert(name: string, serial: nat)

  datatype Item = Item(name: string, cert: Cert)

  /** A hit, or an insert of a certificate. */
  datatype Touch = Touch(name: string, inserted: Option<Cert>)

  /** The position of a name, or the length. */
  function Find(cache: seq<Item>, name: string): (p: nat)
    ensures p <= |cache| && (p < |cache| ==> cache[p].name == name)
    ensures forall k :: 0 <= k < p ==> cache[k].name != name
  {
    if cache == [] || cache[0].name == name then 0 else 1 + Find(cache[1..], name)
  }

  function Without(cache: seq<Item>, p: nat): seq<Item>
    requires p < |cache|
  {
    cache[..p] + cache[p + 1..]
  }

  /** A hit moves the item to the front. */
  function Hit(cache: seq<Item>, name: string): seq<Item>
    requires Find(cache, name) < |cache|
  {
    var p := Find(cache, name);
    [cache[p]] + Without(cache, p)
  }

  /** An insert puts the item at the front, and drops the oldest when there are too many. */
  function Add(cache: seq<Item>, name: string, cert: Cert, capacity: nat): seq<Item> {
    var p := Find(cache, name);
    if p < |cache| then [Item(name, cert)] + Without(cache, p)
    else if |cache| < capacity then [Item(name, cert)] + cache
    else ([Item(name, cert)] + cache)[..capacity]
  }

  // ---- the meaning, from the history alone ------------------------------

  /** When a name was last touched; -1 for never. */
  function Last(log: seq<Touch>, name: string): (t: int)
    ensures -1 <= t < |log|
  {
    if log == [] then -1
    else if log[|log| - 1].name == name then |log| - 1
    else Last(log[..|log| - 1], name)
  }

  /** The certificate inserted last under a name. */
  function Latest(log: seq<Touch>, name: string): Option<Cert> {
    if log == [] then None
    else
      var t := log[|log| - 1];
      if t.name == name && t.inserted.Some? then t.inserted else Latest(log[..|log| - 1], name)
  }

  function Touched(log: seq<Touch>): set<string> {
    set t | t in log :: t.name
  }

  function Names(cache: seq<Item>): set<string> {
    set k | 0 <= k < |cache| :: cache[k].name
  }

  predicate Missing(cache: seq<Item>, name: string) {
    forall k :: 0 <= k < |cache| ==> cache[k].name != name
  }

  /** Newest first, each with its latest certificate. */
  ghost predicate Kept(cache: seq<Item>, last: string -> int, latest: string -> Option<Cert>) {
    && (forall k :: 0 <= k < |cache| ==> last(cache[k].name) >= 0 && latest(cache[k].name) == Some(cache[k].cert))
    && (forall i, j :: 0 <= i < j < |cache| ==> last(cache[i].name) > last(cache[j].name))
  }

  /** What is missing is older than everything kept, in a full cache. */
  ghost predicate Recent(cache: seq<Item>, last: string -> int, latest: string -> Option<Cert>, capacity: nat) {
    && |cache| <= capacity
    && Kept(cache, last, latest)
    && forall name :: last(name) >= 0 && Missing(cache, name) ==> Older(cache, last, name) && |cache| == capacity
  }

  ghost predicate Older(cache: seq<Item>, last: string -> int, name: string) {
    forall k :: 0 <= k < |cache| ==> last(name) < last(cache[k].name)
  }

  /** The cache after the touches of the log. */
  ghost predicate IsLru(cache: seq<Item>, log: seq<Touch>, capacity: nat) {
    Recent(cache, name => Last(log, name), name => Latest(log, name), capacity)
  }

  /** The last touch of a name, and none of it later. */
  lemma {:induction false} LastIsLast(log: seq<Touch>, name: string)
    ensures var t := Last(log, name);
            && (t >= 0 ==> log[t].name == name)
            && forall k :: 0 <= k < |log| && t < k ==> log[k].name != name
  {
    if log != [] && log[|log| - 1].name != name {
      LastIsLast(log[..|log| - 1], name);
    }
  }

  predicate Inserts(touch: Touch, name: string) {
    touch.name == name && touch.inserted.Some?
  }

  /** The certificate of the last insert under a name, and no insert of it later. */
  lemma {:induction false} LatestIsLast(log: seq<Touch>, name: string)
    ensures match Latest(log, name)
            case None => forall k :: 0 <= k < |log| ==> !Inserts(log[k], name)
            case Some(cert) =>
              exists k :: 0 <= k < |log| && log[k] == Touch(name, Some(cert)) && forall j :: k < j < |log| ==> !Inserts(log[j], name)
  {
    if log != [] {
      var last := |log| - 1;
      if Inserts(log[last], name) {
        assert log[last] == Touch(name, Latest(log, name));
      } else {
        LatestIsLast(log[..last], name);
        if Latest(log, name).Some? {
          var cert := Latest(log, name).value;
          var k :| 0 <= k < last && log[..last][k] == Touch(name, Some(cert)) && forall j :: k < j < last ==> !Inserts(log[..last][j], name);
          assert log[k] == Touch(name, Some(cert));
          forall j | k < j < |log| ensures !Inserts(log[j], name) {
            if j < last { assert log[..last][j] == log[j]; }
          }
        } else {
          forall k | 0 <= k < |log| ensures !Inserts(log[k], name) {
            if k < last { assert log[..last][k] == log[k]; }
          }
        }
      }
    }
  }

  /** What one touch changes about the times and certificates. */
  ghost predicate TouchedNow(last: string -> int, latest: string -> Option<Cert>, name: string, cert: Option<Cert>,
                             last': string -> int, latest': string -> Option<Cert>) {
    && (forall n :: n != name ==> last'(n) == last(n) && latest'(n) == latest(n))
    && (forall n :: last(n) < last'(name))
    && latest'(name) == cert && last'(name) >= 0
  }

  lemma LogGrows(log: seq<Touch>, t: Touch)
    ensures TouchedNow(n => Last(log, n), n => Latest(log, n), t.name, if t.inserted.Some? then t.inserted else Latest(log, t.name),
                       n => Last(log + [t], n), n => Latest(log + [t], n))
  {
    assert (log + [t])[..|log|] == log;
  }

  lemma KeptPart(cache: seq<Item>, p: nat, last: string -> int, latest: string -> Option<Cert>)
    requires Kept(cache, last, latest) && p < |cache|
    ensures Kept(Without(cache, p), last, latest) && Missing(Without(cache, p), cache[p].name)
  {
    var rest := Without(cache, p);
    forall i, j | 0 <= i < j < |rest| ensures last(rest[i].name) > last(rest[j].name) {
      assert rest[i] == cache[if i < p then i else i + 1];
      assert rest[j] == cache[if j < p then j else j + 1];
    }
    forall k | 0 <= k < |rest|
      ensures last(rest[k].name) >= 0 && latest(rest[k].name) == Some(rest[k].cert) && rest[k].name != cache[p].name
    {
      assert rest[k] == cache[if k < p then k else k + 1];
    }
  }

  lemma KeptCons(rest: seq<Item>, name: string, cert: Cert,
                 last: string -> int, latest: string -> Option<Cert>, last': string -> int, latest': string -> Option<Cert>)
    requires Kept(rest, last, latest) && Missing(rest, name)
    requires TouchedNow(last, latest, name, Some(cert), last', latest')
    ensures Kept([Item(name, cert)] + rest, last', latest')
  {
    var now := [Item(name, cert)] + rest;
    forall k | 0 <= k < |now|
      ensures last'(now[k].name) >= 0 && latest'(now[k].name) == Some(now[k].cert)
    {
      if k > 0 { assert now[k] == rest[k - 1]; }
    }
    forall i, j | 0 <= i < j < |now| ensures last'(now[i].name) > last'(now[j].name) {
      assert now[j] == rest[j - 1];
      if i > 0 { assert now[i] == rest[i - 1]; }
    }
  }

  /** Of the names other than the one touched, those missing from the rest are older than it, and only in a full cache. */
  ghost predicate OlderBut(rest: seq<Item>, touched: string, last: string -> int, capacity: nat) {
    forall n :: n != touched && last(n) >= 0 && Missing(rest, n) ==> Older(rest, last, n) && |rest| + 1 == capacity
  }

  /** The name touched goes to the front of the rest. */
  lemma ConsIsRecent(rest: seq<Item>, name: string, cert: Cert, capacity: nat,
                     last: string -> int, latest: string -> Option<Cert>, last': string -> int, latest': string -> Option<Cert>)
    requires Kept(rest, last, latest) && Missing(rest, name) && |rest| < capacity && OlderBut(rest, name, last, capacity)
    requires TouchedNow(last, latest, name, Some(cert), last', latest')
    ensures Recent([Item(name, cert)] + rest, last', latest', capacity)
  {
    var now := [Item(name, cert)] + rest;
    KeptCons(rest, name, cert, last, latest, last', latest');
    forall n | last'(n) >= 0 && Missing(now, n) ensures Older(now, last', n) && |now| == capacity {
      assert n != now[0].name;
      forall k | 0 <= k < |rest| ensures rest[k].name != n { assert now[k + 1] == rest[k]; }
      OlderCons(rest, now[0], n, last, latest, Some(cert), last', latest');
    }
  }

  lemma OlderCons(rest: seq<Item>, item: Item, n: string,
                  last: string -> int, latest: string -> Option<Cert>, cert: Option<Cert>, last': string -> int, latest': string -> Option<Cert>)
    requires TouchedNow(last, latest, item.name, cert, last', latest') && n != item.name
    requires Missing(rest, item.name) && Older(rest, last, n)
    ensures Older([item] + rest, last', n)
  {
    var now := [item] + rest;
    forall k | 0 <= k < |now| ensures last'(n) < last'(now[k].name) {
      if k > 0 { assert now[k] == rest[k - 1]; }
    }
  }

  lemma PartIsOlder(cache: seq<Item>, p: nat, n: string, last: string -> int)
    requires Older(cache, last, n) && p < |cache|
    ensures Older(Without(cache, p), last, n)
  {
    var rest := Without(cache, p);
    forall k | 0 <= k < |rest| ensures last(n) < last(rest[k].name) {
      assert rest[k] == cache[if k < p then k else k + 1];
    }
  }

  lemma PartMisses(cache: seq<Item>, p: nat, n: string)
    requires p < |cache| && n != cache[p].name && Missing(Without(cache, p), n)
    ensures Missing(cache, n)
  {
    var rest := Without(cache, p);
    forall k | 0 <= k < |cache| ensures cache[k].name != n {
      if k != p { assert rest[if k < p then k else k - 1] == cache[k]; }
    }
  }

  /** Taking out the item that is touched. */
  lemma RestOfFront(cache: seq<Item>, p: nat, capacity: nat, last: string -> int, latest: string -> Option<Cert>)
    requires Recent(cache, last, latest, capacity) && p < |cache|
    ensures OlderBut(Without(cache, p), cache[p].name, last, capacity)
  {
    var rest := Without(cache, p);
    forall n | n != cache[p].name && last(n) >= 0 && Missing(rest, n) ensures Older(rest, last, n) && |rest| + 1 == capacity {
      PartMisses(cache, p, n);
      PartIsOlder(cache, p, n, last);
    }
  }

  /** Taking out the oldest item of a full cache, which is then missing, too. */
  lemma RestOfFull(cache: seq<Item>, name: string, capacity: nat, last: string -> int, latest: string -> Option<Cert>)
    requires Recent(cache, last, latest, capacity) && |cache| == capacity > 0 && Missing(cache, name)
    ensures OlderBut(Without(cache, capacity - 1), name, last, capacity) && Missing(Without(cache, capacity - 1), name)
  {
    var rest, oldest := Without(cache, capacity - 1), cache[capacity - 1].name;
    assert forall k :: 0 <= k < |rest| ==> rest[k] == cache[k];
    forall n | n != name && last(n) >= 0 && Missing(rest, n) ensures Older(rest, last, n) {
      if n != oldest {
        PartMisses(cache, capacity - 1, n);
        PartIsOlder(cache, capacity - 1, n, last);
      }
    }
  }

  lemma HitKeepsLru(cache: seq<Item>, log: seq<Touch>, capacity: nat, name: string)
    requires IsLru(cache, log, capacity) && Find(cache, name) < |cache|
    ensures IsLru(Hit(cache, name), log + [Touch(name, None)], capacity)
  {
    var p, t := Find(cache, name), Touch(name, None);
    LogGrows(log, t);
    Forward(cache, p, cache[p].cert, log, t, capacity);
  }

  /** One item moves to the front, whatever its new certificate. */
  lemma Forward(cache: seq<Item>, p: nat, cert: Cert, log: seq<Touch>, t: Touch, capacity: nat)
    requires IsLru(cache, log, capacity) && p < |cache| && t.name == cache[p].name
    requires Some(cert) == if t.inserted.Some? then t.inserted else Latest(log, t.name)
    ensures IsLru([Item(t.name, cert)] + Without(cache, p), log + [t], capacity)
  {
    var last, latest := n => Last(log, n), n => Latest(log, n);
    LogGrows(log, t);
    KeptPart(cache, p, last, latest);
    RestOfFront(cache, p, capacity, last, latest);
    ConsIsRecent(Without(cache, p), t.name, cert, capacity, last, latest, n => Last(log + [t], n), n => Latest(log + [t], n));
  }

  lemma AddKeepsLru(cache: seq<Item>, log: seq<Touch>, capacity: nat, name: string, cert: Cert)
    requires IsLru(cache, log, capacity) && capacity > 0
    ensures IsLru(Add(cache, name, cert, capacity), log + [Touch(name, Some(cert))], capacity)
  {
    var p, t := Find(cache, name), Touch(name, Some(cert));
    var last, latest := n => Last(log, n), n => Latest(log, n);
    if p < |cache| {
      Forward(cache, p, cert, log, t, capacity);
    } else {
      var rest := cache;
      if |cache| == capacity {
        rest := Without(cache, capacity - 1);
        KeptPart(cache, capacity - 1, last, latest);
        RestOfFull(cache, name, capacity, last, latest);
      }
      assert Add(cache, name, cert, capacity) == [Item(name, cert)] + rest;
      LogGrows(log, t);
      ConsIsRecent(rest, name, cert, capacity, last, latest, n => Last(log + [t], n), n => Latest(log + [t], n));
    }
  }

  /** An LRU cache holds as many names as there are, up to its capacity. */
  lemma LruSize(cache: seq<Item>, log: seq<Touch>, capacity: nat)
    requires IsLru(cache, log, capacity)
    ensures Names(cache) <= Touched(log)
    ensures |cache| == |Names(cache)| == if |Touched(log)| < capacity then |Touched(log)| else capacity
  {
    forall name ensures Last(log, name) >= 0 <==> name in Touched(log) {
      TouchedHasLast(log, name);
    }
    DistinctNames(cache);
    var missing := Touched(log) - Names(cache);
    forall name | name in Names(cache) ensures name in Touched(log) {
      var k :| 0 <= k < |cache| && cache[k].name == name;
    }
    assert Touched(log) == Names(cache) + missing;
    if name :| name in missing {
      assert Missing(cache, name) by {
        forall k | 0 <= k < |cache| ensures cache[k].name != name {
          assert cache[k].name in Names(cache);
        }
      }
    } else {
      assert missing == {};
    }
  }

  lemma {:induction false} TouchedHasLast(log: seq<Touch>, name: string)
    ensures Last(log, name) >= 0 <==> name in Touched(log)
  {
    if log != [] {
      var before := log[..|log| - 1];
      TouchedHasLast(before, name);
      assert forall t :: t in log <==> t in before || t == log[|log| - 1];
    }
  }

  lemma {:induction false} DistinctNames(cache: seq<Item>)
    requires forall i, j :: 0 <= i < j < |cache| ==> cache[i].name != cache[j].name
    ensures |Names(cache)| == |cache|
  {
    if cache != [] {
      var last := |cache| - 1;
      DistinctNames(cache[..last]);
      assert Names(cache) == Names(cache[..last]) + {cache[last].name};
    }
  }
}
