/**
 * The session store of sessions_utils.py: a JSON file holding a list of
 * session records, read whole and written whole. Adding a session re-sorts
 * the list stably by datetime; deleting one removes it by its position.
 */
module SessionsUtils {
  import opened Records

  // The module's error codes, `CORRECT, ERR_NO_FILE, ERR_FILE_BUSY, ERR_JSON, ERR_IO = range(5)`.
  const CORRECT := 0
  const ERR_NO_FILE := 1
  const ERR_FILE_BUSY := 2
  const ERR_JSON := 3
  const ERR_IO := 4

  const OUT_OF_BOUNDS_MSG := "Session number is out of bounds."
  const JSON_ERROR_PREFIX := "json error: "

  /** The `(err_code, err_msg)` pair the store functions return. */
  datatype Status = Status(code: int, msg: string)

  /** A call that either returns a value or lets an exception escape to its caller. */
  datatype Call<+T> = Returned(value: T) | Raised

  /**
   * What a sessions file holds: a JSON list of records, or text that does not
   * decode as JSON (an empty file after truncation, or a half-written dump).
   */
  datatype FileContent = Json(records: seq<Session>) | NotJson

  /** The list `get_sessions_list` yields for a file: a ValueError while decoding gives []. */
  function Decode(c: FileContent): seq<Session>
  {
    match c
    case Json(records) => records
    case NotJson => []
  }

  // ---------------------------------------------------------------------------
  // `sorted(..., key=...)`: a stable sort, given here by stable insertion.
  // ---------------------------------------------------------------------------

  predicate SortedBy<T>(s: seq<T>, key: T -> int)
  {
    forall i, j :: 0 <= i < j < |s| ==> key(s[i]) <= key(s[j])
  }

  /** The elements of `s` whose key is `v`, in their order in `s`. */
  function WithKey<T>(s: seq<T>, key: T -> int, v: int): seq<T>
  {
    if |s| == 0 then []
    else (if key(s[0]) == v then [s[0]] else []) + WithKey(s[1..], key, v)
  }

  /** Puts `x` into sorted `s` after every element whose key is not greater than its own. */
  function Insert<T>(s: seq<T>, x: T, key: T -> int): (r: seq<T>)
    ensures |r| == |s| + 1
  {
    if |s| == 0 then [x]
    else if key(x) < key(s[0]) then [x] + s
    else [s[0]] + Insert(s[1..], x, key)
  }

  /** Stable insertion sort: each element, taken in order, goes after every element with a key not greater than its own. */
  function SortByKey<T>(s: seq<T>, key: T -> int): (r: seq<T>)
    ensures |r| == |s|
  {
    if |s| == 0 then [] else Insert(SortByKey(s[..|s| - 1], key), s[|s| - 1], key)
  }

  lemma {:induction false} WithKeyAppend<T>(a: seq<T>, b: seq<T>, key: T -> int, v: int)
    ensures WithKey(a + b, key, v) == WithKey(a, key, v) + WithKey(b, key, v)
  {
    if |a| == 0 {
      assert a + b == b;
    } else {
      assert (a + b)[1..] == a[1..] + b;
      WithKeyAppend(a[1..], b, key, v);
    }
  }

  lemma {:induction false} WithKeyAbsent<T>(s: seq<T>, key: T -> int, v: int)
    requires forall i :: 0 <= i < |s| ==> key(s[i]) != v
    ensures WithKey(s, key, v) == []
  {
    if |s| > 0 {
      WithKeyAbsent(s[1..], key, v);
    }
  }

  lemma {:induction false} InsertLowerBound<T>(s: seq<T>, x: T, key: T -> int, lo: int)
    requires forall i :: 0 <= i < |s| ==> lo <= key(s[i])
    requires lo <= key(x)
    ensures forall i :: 0 <= i < |Insert(s, x, key)| ==> lo <= key(Insert(s, x, key)[i])
  {
    if |s| > 0 && key(s[0]) <= key(x) {
      InsertLowerBound(s[1..], x, key, lo);
    }
  }

  lemma {:induction false} InsertSorted<T>(s: seq<T>, x: T, key: T -> int)
    requires SortedBy(s, key)
    ensures SortedBy(Insert(s, x, key), key)
  {
    if |s| > 0 && key(s[0]) <= key(x) {
      InsertSorted(s[1..], x, key);
      InsertLowerBound(s[1..], x, key, key(s[0]));
    }
  }

  lemma {:induction false} InsertMultiset<T>(s: seq<T>, x: T, key: T -> int)
    ensures multiset(Insert(s, x, key)) == multiset(s) + multiset{x}
  {
    if |s| > 0 && key(s[0]) <= key(x) {
      InsertMultiset(s[1..], x, key);
      assert s == [s[0]] + s[1..];
    }
  }

  /** Inserting into a sorted list puts `x` after every element with the same key. */
  lemma {:induction false} InsertWithKey<T>(s: seq<T>, x: T, key: T -> int, v: int)
    requires SortedBy(s, key)
    ensures WithKey(Insert(s, x, key), key, v) == WithKey(s, key, v) + (if key(x) == v then [x] else [])
  {
    var tail := if key(x) == v then [x] else [];
    if |s| == 0 {
      assert [x][1..] == [];
      assert WithKey([x], key, v) == tail + WithKey([x][1..], key, v);
    } else if key(x) < key(s[0]) {
      var r := [x] + s;
      assert r[0] == x && r[1..] == s;
      assert WithKey(r, key, v) == tail + WithKey(s, key, v);
      if key(x) == v {
        assert forall i :: 0 <= i < |s| ==> key(s[i]) != v by {
          forall i | 0 <= i < |s| ensures key(s[i]) != v {
            assert key(s[0]) <= key(s[i]);
          }
        }
        WithKeyAbsent(s, key, v);
      }
    } else {
      var t := Insert(s[1..], x, key);
      assert SortedBy(s[1..], key);
      InsertWithKey(s[1..], x, key, v);
      var head := if key(s[0]) == v then [s[0]] else [];
      var r := [s[0]] + t;
      assert r[0] == s[0] && r[1..] == t;
      assert Insert(s, x, key) == r;
      calc {
        WithKey(r, key, v);
        head + WithKey(t, key, v);
        head + (WithKey(s[1..], key, v) + tail);
        (head + WithKey(s[1..], key, v)) + tail;
        WithKey(s, key, v) + tail;
      }
    }
  }

  /**
   * The reference sort is sorted, a permutation of its input, and stable: for
   * every key, the elements with that key appear in their original order.
   */
  lemma {:induction false} SortByKeyCorrect<T>(s: seq<T>, key: T -> int)
    ensures SortedBy(SortByKey(s, key), key)
    ensures multiset(SortByKey(s, key)) == multiset(s)
    ensures forall v :: WithKey(SortByKey(s, key), key, v) == WithKey(s, key, v)
  {
    if |s| > 0 {
      var init, last := s[..|s| - 1], s[|s| - 1];
      SortByKeyCorrect(init, key);
      InsertSorted(SortByKey(init, key), last, key);
      InsertMultiset(SortByKey(init, key), last, key);
      assert s == init + [last];
      forall v
        ensures WithKey(SortByKey(s, key), key, v) == WithKey(s, key, v)
      {
        InsertWithKey(SortByKey(init, key), last, key, v);
        WithKeyAppend(init, [last], key, v);
        assert [last][1..] == [];
      }
    }
  }

  // ---------------------------------------------------------------------------
  // The list operations behind add_new_session and delete_session.
  // ---------------------------------------------------------------------------

  /** The list add_new_session writes: the old list with the new session appended, sorted by datetime. */
  function AddedList(s: seq<Session>, dt: string, url: string, parse: Parser): (r: seq<Session>)
    ensures multiset(r) == multiset(s) + multiset{Session(dt, url, false)}
  {
    SortByKeyCorrect(s + [Session(dt, url, false)], KeyOf(parse));
    SortByKey(s + [Session(dt, url, false)], KeyOf(parse))
  }

  /**
   * add_new_session's list: one longer, the old sessions plus the new one, ordered by
   * parsed datetime, equal datetimes in their old order with the new session after them.
   */
  lemma AddedListSpec(s: seq<Session>, dt: string, url: string, parse: Parser)
    requires AllParse(parse, s + [Session(dt, url, false)])
    ensures var r := AddedList(s, dt, url, parse);
      && |r| == |s| + 1
      && multiset(r) == multiset(s) + multiset{Session(dt, url, false)}
      && AllParse(parse, r)
      && (forall i, j :: 0 <= i < j < |r| ==> parse(r[i].dtStr).value <= parse(r[j].dtStr).value)
      && (forall v :: WithKey(r, KeyOf(parse), v) ==
            WithKey(s, KeyOf(parse), v) + (if parse(dt).value == v then [Session(dt, url, false)] else []))
  {
    var n := Session(dt, url, false);
    var all := s + [n];
    var r := AddedList(s, dt, url, parse);
    SortByKeyCorrect(all, KeyOf(parse));
    assert |r| == |multiset(r)| == |multiset(all)| == |all|;
    forall i | 0 <= i < |r|
      ensures parse(r[i].dtStr).Some?
    {
      assert r[i] in multiset(r);
      assert r[i] in all;
    }
    forall v
      ensures WithKey(r, KeyOf(parse), v) == WithKey(s, KeyOf(parse), v) + (if parse(dt).value == v then [n] else [])
    {
      WithKeyAppend(s, [n], KeyOf(parse), v);
      assert [n][1..] == [];
      assert parse(n.dtStr).Some?;
    }
  }

  /** delete_session's list update: `pop(n)` when `0 <= n < len`, nothing otherwise. */
  function DeleteAt(s: seq<Session>, n: int): (r: Option<seq<Session>>)
    ensures r.Some? <==> 0 <= n < |s|
    ensures r.Some? ==> |r.value| == |s| - 1
    ensures r.Some? ==> forall i :: 0 <= i < n ==> r.value[i] == s[i]
    ensures r.Some? ==> forall i :: n <= i < |r.value| ==> r.value[i] == s[i + 1]
    ensures r.Some? ==> multiset(r.value) + multiset{s[n]} == multiset(s)
  {
    if 0 <= n < |s| then
      assert s == s[..n] + [s[n]] + s[n + 1..];
      Some(s[..n] + s[n + 1..])
    else
      None
  }

  // ---------------------------------------------------------------------------
  // The file itself.
  // ---------------------------------------------------------------------------

  /** One sessions file on disk (`sessions.lst` or `sessions_passed.lst`). */
  class SessionFile {
    var content: FileContent

    constructor (c: FileContent)
      ensures content == c
    {
      content := c;
    }

    /** The list get_sessions_list returns for this file now. */
    function Sessions(): seq<Session>
      reads this
    {
      Decode(content)
    }

    /** get_sessions_list: the stored list, or [] when the file does not hold valid JSON. */
    method GetSessionsList() returns (s: seq<Session>)
      ensures content.Json? ==> s == content.records
      ensures content.NotJson? ==> s == []
    {
      s := Decode(content);
    }

    /**
     * put_sessions_list: the file is opened for writing (truncated) and the list dumped;
     * a serialisation ValueError leaves a file that no longer decodes.
     */
    method PutSessionsList(s: seq<Session>, serializable: bool, errText: string) returns (st: Status)
      modifies this
      ensures serializable ==> st == Status(CORRECT, "") && content == Json(s)
      ensures !serializable ==> st == Status(ERR_JSON, JSON_ERROR_PREFIX + errText) && content == NotJson
    {
      if serializable {
        content := Json(s);
        st := Status(CORRECT, "");
      } else {
        content := NotJson;
        st := Status(ERR_JSON, JSON_ERROR_PREFIX + errText);
      }
    }

    /**
     * add_new_session: append `{datetime, url, passed: False}`, sort by parsed datetime and
     * write back. A datetime that does not parse raises out of the sort before anything is written.
     */
    method AddNewSession(dt: string, url: string, parse: Parser, serializable: bool, errText: string)
      returns (r: Call<Status>)
      modifies this
      ensures !AllParse(parse, old(Sessions()) + [Session(dt, url, false)]) ==>
        r == Raised && content == old(content)
      ensures AllParse(parse, old(Sessions()) + [Session(dt, url, false)]) && serializable ==>
        r == Returned(Status(CORRECT, "")) && content == Json(AddedList(old(Sessions()), dt, url, parse))
      ensures AllParse(parse, old(Sessions()) + [Session(dt, url, false)]) && !serializable ==>
        r == Returned(Status(ERR_JSON, JSON_ERROR_PREFIX + errText)) && content == NotJson
    {
      var sessions := GetSessionsList();
      var newSession := Session(dt, url, false);
      sessions := sessions + [newSession];
      if !AllParse(parse, sessions) {
        return Raised;
      }
      var sorted := SortByKey(sessions, KeyOf(parse));
      var st := PutSessionsList(sorted, serializable, errText);
      r := Returned(st);
    }

    /** delete_all_sessions: truncate the file; an exception while opening it is returned as ERR_IO. */
    method DeleteAllSessions(ioOk: bool, errText: string) returns (st: Status)
      modifies this
      ensures ioOk ==> st == Status(CORRECT, "") && content == NotJson && Sessions() == []
      ensures !ioOk ==> st == Status(ERR_IO, errText) && content == old(content)
    {
      if ioOk {
        content := NotJson;
        st := Status(CORRECT, "");
      } else {
        st := Status(ERR_IO, errText);
      }
    }

    /**
     * delete_session: remove the session at index `n` and write the list back; an index
     * outside `0 <= n < len` is refused with ERR_IO and the file is not rewritten.
     */
    method DeleteSession(n: int, serializable: bool, errText: string) returns (st: Status)
      modifies this
      ensures 0 <= n < |old(Sessions())| && serializable ==>
        st == Status(CORRECT, "") && content == Json(DeleteAt(old(Sessions()), n).value)
      ensures 0 <= n < |old(Sessions())| && !serializable ==>
        st == Status(ERR_JSON, JSON_ERROR_PREFIX + errText) && content == NotJson
      ensures !(0 <= n < |old(Sessions())|) ==>
        st == Status(ERR_IO, OUT_OF_BOUNDS_MSG) && content == old(content)
    {
      var sessions := GetSessionsList();
      if 0 <= n < |sessions| {
        sessions := sessions[..n] + sessions[n + 1..];
        st := PutSessionsList(sessions, serializable, errText);
      } else {
        st := Status(ERR_IO, OUT_OF_BOUNDS_MSG);
      }
    }
  }
}
