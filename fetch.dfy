/**
 * Building the message list after the IMAP search: the ids are put newest first and cut
 * to the fetch limit, each surviving message gets a numbered dropdown key, and a chosen
 * key is resolved back to its entry.
 */
module Fetch {
  import opened Wrappers
  import opened Mime

  type MessageId = string

  /** One row of the list: the dropdown key, the IMAP id and the fetched message. */
  datatype Entry = Entry(key: string, id: MessageId, msg: Email)

  /** `ids[::-1]` */
  function Reversed<T>(s: seq<T>): seq<T>
  {
    if s == [] then [] else [s[|s| - 1]] + Reversed(s[..|s| - 1])
  }

  lemma {:induction false} ReversedAt<T>(s: seq<T>, k: nat)
    requires k < |s|
    ensures |Reversed(s)| == |s|
    ensures Reversed(s)[k] == s[|s| - 1 - k]
  {
    if k > 0 {
      ReversedAt(s[..|s| - 1], k - 1);
    } else if |s| > 1 {
      ReversedAt(s[..|s| - 1], 0);
    }
  }

  /** `ids[:limit]` for a non-negative limit: Python slicing never fails past the end. */
  function Take<T>(s: seq<T>, limit: nat): seq<T>
  {
    if limit <= |s| then s[..limit] else s
  }

  function Min(a: nat, b: nat): nat { if a <= b then a else b }

  /**
   * `ids = data[0].split()[::-1]; ids = ids[:max_fetch]`: at most `maxFetch` ids, the
   * k-th being the k-th newest (IMAP search returns ids oldest first).
   */
  function NewestFirst(searchIds: seq<MessageId>, maxFetch: nat): (ids: seq<MessageId>)
    ensures |ids| == Min(|searchIds|, maxFetch)
    ensures forall k | 0 <= k < |ids| :: ids[k] == searchIds[|searchIds| - 1 - k]
  {
    var all := Reversed(searchIds);
    assert |searchIds| > 0 ==> |all| == |searchIds| by {
      if |searchIds| > 0 { ReversedAt(searchIds, 0); }
    }
    forall k | 0 <= k < |all| ensures all[k] == searchIds[|searchIds| - 1 - k] {
      ReversedAt(searchIds, k);
    }
    Take(all, maxFetch)
  }

  /** The decimal digit for `d`. */
  function DigitChar(d: nat): char
    requires d < 10
  {
    ['0', '1', '2', '3', '4', '5', '6', '7', '8', '9'][d]
  }

  predicate IsDigit(c: char) { '0' <= c <= '9' }

  function DigitValue(c: char): nat
    requires IsDigit(c)
  {
    c as int - '0' as int
  }

  /** `str(n)` for a natural number: its decimal digits, most significant first. */
  function DecimalString(n: nat): (s: string)
    ensures |s| >= 1
    ensures forall i | 0 <= i < |s| :: IsDigit(s[i])
    ensures n >= 1 ==> s[0] != '0'
  {
    if n < 10 then [DigitChar(n)] else DecimalString(n / 10) + [DigitChar(n % 10)]
  }

  /** `int(s)` for a string of decimal digits: the partner that reads DecimalString back. */
  function ParseDecimal(s: string): nat
    requires forall i | 0 <= i < |s| :: IsDigit(s[i])
  {
    if s == [] then 0 else 10 * ParseDecimal(s[..|s| - 1]) + DigitValue(s[|s| - 1])
  }

  lemma {:induction false} ParseDecimalString(n: nat)
    ensures ParseDecimal(DecimalString(n)) == n
  {
    var s := DecimalString(n);
    if n >= 10 {
      ParseDecimalString(n / 10);
      assert s[..|s| - 1] == DecimalString(n / 10);
    }
  }

  lemma DecimalStringInjective(m: nat, n: nat)
    requires DecimalString(m) == DecimalString(n)
    ensures m == n
  {
    ParseDecimalString(m);
    ParseDecimalString(n);
  }

  /** `f"{i+1}: {subj} — {from_}"`: the key of the message at position i of the list. */
  function Key(i: nat, subject: string, sender: string): string
  {
    DecimalString(i + 1) + ": " + subject + " \U{2014} " + sender
  }

  /** The number of characters before the first ':'. */
  function ColonIndex(s: string): nat
  {
    if s == [] || s[0] == ':' then 0 else 1 + ColonIndex(s[1..])
  }

  lemma {:induction false} DigitsEndAtColon(digits: string, rest: string)
    requires forall i | 0 <= i < |digits| :: IsDigit(digits[i])
    requires rest != [] && rest[0] == ':'
    ensures ColonIndex(digits + rest) == |digits|
  {
    if digits != [] {
      assert (digits + rest)[1..] == digits[1..] + rest;
      DigitsEndAtColon(digits[1..], rest);
    }
  }

  /** Keys at different positions differ, whatever the subjects and senders. */
  lemma KeyInjective(i: nat, s1: string, f1: string, j: nat, s2: string, f2: string)
    requires Key(i, s1, f1) == Key(j, s2, f2)
    ensures i == j
  {
    var a, b := DecimalString(i + 1), DecimalString(j + 1);
    var k1, k2 := Key(i, s1, f1), Key(j, s2, f2);
    assert k1 == a + (": " + s1 + " \U{2014} " + f1);
    assert k2 == b + (": " + s2 + " \U{2014} " + f2);
    DigitsEndAtColon(a, ": " + s1 + " \U{2014} " + f1);
    DigitsEndAtColon(b, ": " + s2 + " \U{2014} " + f2);
    assert a == k1[..|a|];
    assert b == k2[..|b|];
    DecimalStringInjective(i + 1, j + 1);
  }

  /** Every entry carries the key of its own position. */
  predicate Numbered(list: seq<Entry>)
  {
    forall i | 0 <= i < |list| :: list[i].key == Key(i, list[i].msg.subject, list[i].msg.sender)
  }

  /**
   * The `for i, mid in enumerate(ids)` loop: fetch each id, number it and append it to the
   * list. fetch stands for the IMAP FETCH, the MIME parse and the header decoding; None is
   * an exception, which ends the loop (the handler is outside it) and keeps the entries
   * already appended.
   */
  method ListMessages(searchIds: seq<MessageId>, maxFetch: nat, fetch: MessageId -> Option<Email>)
    returns (list: seq<Entry>)
    ensures |list| <= Min(|searchIds|, maxFetch)
    ensures Numbered(list)
    ensures forall k | 0 <= k < |list| ::
      list[k].id == searchIds[|searchIds| - 1 - k] && fetch(list[k].id) == Some(list[k].msg)
    ensures |list| < Min(|searchIds|, maxFetch) ==> fetch(searchIds[|searchIds| - 1 - |list|]).None?
  {
    var ids := NewestFirst(searchIds, maxFetch);
    list := [];
    for i := 0 to |ids|
      invariant |list| == i
      invariant Numbered(list)
      invariant forall k | 0 <= k < i :: list[k].id == ids[k] && fetch(ids[k]) == Some(list[k].msg)
    {
      var mid := ids[i];
      var fetched := fetch(mid);
      if fetched.None? {
        return;
      }
      var msg := fetched.value;
      var key := Key(i, msg.subject, msg.sender);
      list := list + [Entry(key, mid, msg)];
    }
  }

  /** `[m[0] for m in messages_list]` */
  function Keys(list: seq<Entry>): (keys: seq<string>)
    ensures |keys| == |list|
    ensures forall i | 0 <= i < |list| :: keys[i] == list[i].key
  {
    if list == [] then [] else [list[0].key] + Keys(list[1..])
  }

  /** `keys.index(k)`: the first position holding k. */
  function IndexOf(keys: seq<string>, k: string): (r: nat)
    requires k in keys
    ensures r < |keys| && keys[r] == k
    ensures forall j | 0 <= j < r :: keys[j] != k
  {
    if keys[0] == k then 0 else 1 + IndexOf(keys[1..], k)
  }

  /** `messages_list[keys.index(selected)]` */
  function Select(list: seq<Entry>, selected: string): (e: Entry)
    requires selected in Keys(list)
    ensures e in list && e.key == selected
  {
    list[IndexOf(Keys(list), selected)]
  }

  /** Choosing the key shown at position i yields exactly the entry at position i. */
  lemma SelectAt(list: seq<Entry>, i: nat)
    requires Numbered(list) && i < |list|
    ensures list[i].key in Keys(list)
    ensures Select(list, list[i].key) == list[i]
  {
    var keys := Keys(list);
    assert keys[i] == list[i].key;
    var j := IndexOf(keys, list[i].key);
    if j != i {
      assert j < i;
      KeyInjective(j, list[j].msg.subject, list[j].msg.sender, i, list[i].msg.subject, list[i].msg.sender);
    }
  }
}
