/**
 * The create-statement controller's request handling: the operation type is
 * the URL path segment after `statements`, and the roles follow from it — on
 * a transfer the authenticated user sends to the user named in the route,
 * otherwise the authenticated user owns the statement.
 */
module CreateStatementController {
  import opened Wrappers
  import opened Ledger

  /** `String.prototype.split` with a one-character separator: always at least one part. */
  function Split(s: string, sep: char): (parts: seq<string>)
    ensures |parts| >= 1
    ensures forall i :: 0 <= i < |parts| ==> sep !in parts[i]
    decreases |s|
  {
    if |s| == 0 then [""]
    else
      var rest := Split(s[1..], sep);
      if s[0] == sep then [""] + rest
      else [[s[0]] + rest[0]] + rest[1..]
  }

  /** No part contains the separator. */
  predicate SeparatorFree(parts: seq<string>, sep: char)
  {
    forall i :: 0 <= i < |parts| ==> sep !in parts[i]
  }

  /** `Array.prototype.join` with a one-character separator. */
  function Join(parts: seq<string>, sep: char): string
    requires |parts| >= 1
  {
    if |parts| == 1 then parts[0] else parts[0] + [sep] + Join(parts[1..], sep)
  }

  /** Joining the parts of a split gives the string back. */
  lemma {:induction false} JoinSplit(s: string, sep: char)
    ensures Join(Split(s, sep), sep) == s
    decreases |s|
  {
    if |s| > 0 {
      var rest := Split(s[1..], sep);
      JoinSplit(s[1..], sep);
      if s[0] == sep {
        assert ([""] + rest)[1..] == rest;
      } else {
        var parts := [[s[0]] + rest[0]] + rest[1..];
        if |rest| > 1 {
          assert parts[1..] == rest[1..];
          assert Join(rest, sep) == rest[0] + [sep] + Join(rest[1..], sep);
        }
        assert s == [s[0]] + s[1..];
      }
    }
  }

  /** Splitting a string that starts with a separator-free prefix `p`: `p` is glued to the first part. */
  lemma {:induction false} SplitPrefix(p: string, t: string, sep: char)
    requires sep !in p
    ensures Split(p + t, sep) == [p + Split(t, sep)[0]] + Split(t, sep)[1..]
    decreases |p|
  {
    if |p| > 0 {
      assert (p + t)[1..] == p[1..] + t;
      SplitPrefix(p[1..], t, sep);
      assert [p[0]] + (p[1..] + Split(t, sep)[0]) == p + Split(t, sep)[0];
    } else {
      var parts := Split(t, sep);
      assert p + t == t && p + parts[0] == parts[0];
      assert [parts[0]] + parts[1..] == parts;
    }
  }

  /** Splitting separator-free parts joined by the separator gives the parts back. */
  lemma {:induction false} SplitJoin(parts: seq<string>, sep: char)
    requires |parts| >= 1
    requires SeparatorFree(parts, sep)
    ensures Split(Join(parts, sep), sep) == parts
  {
    if |parts| == 1 {
      SplitPrefix(parts[0], "", sep);
      assert parts[0] + "" == parts[0];
    } else {
      var tail := Join(parts[1..], sep);
      SplitJoin(parts[1..], sep);
      assert ([sep] + tail)[1..] == tail;
      assert Split([sep] + tail, sep) == [""] + parts[1..];
      assert parts[0] + [sep] + tail == parts[0] + ([sep] + tail);
      SplitPrefix(parts[0], [sep] + tail, sep);
      assert parts[0] + "" == parts[0];
    }
  }

  /** `Array.prototype.indexOf`: the first position holding `x`, or -1. */
  function IndexOf(parts: seq<string>, x: string): (r: int)
    ensures -1 <= r < |parts|
    ensures r == -1 <==> x !in parts
    ensures r >= 0 ==> parts[r] == x && x !in parts[..r]
  {
    if |parts| == 0 then -1
    else if parts[0] == x then 0
    else
      var k := IndexOf(parts[1..], x);
      if k == -1 then -1
      else
        assert parts[..k + 1] == [parts[0]] + parts[1..][..k];
        k + 1
  }

  /**
   * The operation type: the segment after the first `statements` segment of the
   * URL split on '/', or segment 0 when there is none (`indexOf` gives -1);
   * `None` when that index is past the last segment.
   */
  function TypeSegment(originalUrl: string): (t: Option<string>)
    ensures var parts := Split(originalUrl, '/');
      "statements" !in parts ==> t == Some(parts[0])
    ensures var parts := Split(originalUrl, '/');
      t.None? <==> parts[|parts| - 1] == "statements" && "statements" !in parts[..|parts| - 1]
    ensures var parts := Split(originalUrl, '/');
      t.Some? && "statements" in parts ==>
        exists i :: 0 <= i < |parts| - 1 && parts[i] == "statements" && "statements" !in parts[..i]
          && t == Some(parts[i + 1])
    ensures t.Some? ==> '/' !in t.value
  {
    var splittedPath := Split(originalUrl, '/');
    var indexOfType := IndexOf(splittedPath, "statements") + 1;
    if indexOfType < |splittedPath| then Some(splittedPath[indexOfType]) else None
  }

  /** `indexOf` finds `x` at `n` when `n` holds `x` and no earlier position does. */
  lemma IndexOfAt(parts: seq<string>, x: string, n: nat)
    requires n < |parts| && parts[n] == x && x !in parts[..n]
    ensures IndexOf(parts, x) == n
  {
  }

  /** A URL whose segments are `prefix`, then `statements`, then `t`, yields `t`. */
  lemma TypeFollowsStatements(prefix: seq<string>, t: string, rest: seq<string>)
    requires "statements" !in prefix
    requires SeparatorFree(prefix, '/') && '/' !in t && SeparatorFree(rest, '/')
    ensures TypeSegment(Join(prefix + ["statements", t] + rest, '/')) == Some(t)
  {
    var parts := prefix + ["statements", t] + rest;
    forall i | 0 <= i < |parts| ensures '/' !in parts[i] {
      if i < |prefix| { assert parts[i] == prefix[i]; }
      else if i >= |prefix| + 2 { assert parts[i] == rest[i - |prefix| - 2]; }
    }
    SplitJoin(parts, '/');
    assert parts[..|prefix|] == prefix;
    IndexOfAt(parts, "statements", |prefix|);
  }

  /** A URL ending at its `statements` segment has no type segment. */
  lemma NoSegmentAfterStatements(prefix: seq<string>)
    requires "statements" !in prefix
    requires SeparatorFree(prefix, '/')
    ensures TypeSegment(Join(prefix + ["statements"], '/')) == None
  {
    var parts := prefix + ["statements"];
    forall i | 0 <= i < |parts| ensures '/' !in parts[i] {
      if i < |prefix| { assert parts[i] == prefix[i]; }
    }
    SplitJoin(parts, '/');
    assert parts[..|prefix|] == prefix;
    IndexOfAt(parts, "statements", |prefix|);
  }

  /** The first part of a split is the longest separator-free prefix. */
  lemma {:induction false} SplitHead(s: string, sep: char)
    ensures Split(s, sep)[0] <= s
    ensures |Split(s, sep)[0]| == |s| || s[|Split(s, sep)[0]|] == sep
    decreases |s|
  {
    if |s| > 0 && s[0] != sep {
      SplitHead(s[1..], sep);
    }
  }

  /**
   * Without a `statements` segment the type is the URL's text before its first
   * '/' (the empty string for a URL starting with '/').
   */
  lemma NoStatementsSegment(originalUrl: string)
    requires "statements" !in Split(originalUrl, '/')
    ensures TypeSegment(originalUrl).Some?
    ensures var t := TypeSegment(originalUrl).value;
      t <= originalUrl && '/' !in t && (|t| == |originalUrl| || originalUrl[|t|] == '/')
  {
    SplitHead(originalUrl, '/');
  }

  /** What the controller hands to the create-statement use case. */
  datatype CreateStatementRequest = CreateStatementRequest(
    user_id: Option<Id>,
    kind: Option<string>,
    amount: int,
    description: string,
    sender_id: Option<Id>)

  /**
   * The request built from the authenticated user `id`, the route parameter
   * `user_id`, the body's `amount` and `description` and the original URL.
   */
  function Execute(id: Id, user_id: Option<Id>, amount: int, description: string, originalUrl: string)
    : (r: CreateStatementRequest)
    ensures r.kind == TypeSegment(originalUrl)
    ensures r.amount == amount && r.description == description
    ensures r.kind == Some("transfer") ==> r.sender_id == Some(id) && r.user_id == user_id
    ensures r.kind != Some("transfer") ==> r.user_id == Some(id) && r.sender_id.None?
  {
    var kind := TypeSegment(originalUrl);
    if kind == Some("transfer") then CreateStatementRequest(user_id, kind, amount, description, Some(id))
    else CreateStatementRequest(Some(id), kind, amount, description, None)
  }

  /** The deposit route's URL as segments. */
  lemma DepositUrl()
    ensures Join(["", "api", "v1"] + ["statements", "deposit"] + [], '/') == "/api/v1/statements/deposit"
  {
    var parts := ["", "api", "v1"] + ["statements", "deposit"] + [];
    assert parts == ["", "api", "v1", "statements", "deposit"];
    var tail := "statements" + "/" + "deposit";
    assert Join(parts[3..], '/') == tail;
    assert Join(parts[2..], '/') == "v1" + "/" + tail;
    assert Join(parts[1..], '/') == "api" + "/" + ("v1" + "/" + tail);
    assert Join(parts, '/') == "" + "/" + ("api" + "/" + ("v1" + "/" + tail));
  }

  /** `/api/v1/statements/deposit` is a deposit owned by the authenticated user. */
  lemma DepositRoute(id: Id, amount: int, description: string)
    ensures Execute(id, None, amount, description, "/api/v1/statements/deposit")
         == CreateStatementRequest(Some(id), Some("deposit"), amount, description, None)
  {
    TypeFollowsStatements(["", "api", "v1"], "deposit", []);
    DepositUrl();
  }

  /** Joining one more part appends the separator and that part. */
  lemma {:induction false} JoinSnoc(parts: seq<string>, last: string, sep: char)
    requires |parts| >= 1
    ensures Join(parts + [last], sep) == Join(parts, sep) + [sep] + last
  {
    if |parts| > 1 {
      assert (parts + [last])[1..] == parts[1..] + [last];
      JoinSnoc(parts[1..], last, sep);
    }
  }

  /** The transfer route's fixed segments joined. */
  lemma TransferRouteJoin()
    ensures Join(["", "api", "v1", "statements", "transfer"], '/') == "/api/v1/statements/transfer"
  {
    var route := ["", "api", "v1", "statements", "transfer"];
    var tail := "statements" + "/" + "transfer";
    assert Join(route[3..], '/') == tail;
    assert Join(route[2..], '/') == "v1" + "/" + tail;
    assert Join(route[1..], '/') == "api" + "/" + ("v1" + "/" + tail);
    assert Join(route, '/') == "" + "/" + ("api" + "/" + ("v1" + "/" + tail));
  }

  /** The transfer route's URL as segments. */
  lemma TransferUrl(receiver: Id)
    ensures Join(["", "api", "v1"] + ["statements", "transfer"] + [receiver], '/')
         == "/api/v1/statements/transfer/" + receiver
  {
    var route := ["", "api", "v1", "statements", "transfer"];
    assert ["", "api", "v1"] + ["statements", "transfer"] + [receiver] == route + [receiver];
    TransferRouteJoin();
    JoinSnoc(route, receiver, '/');
    assert "/api/v1/statements/transfer" + "/" == "/api/v1/statements/transfer/";
  }

  /** `/api/v1/statements/transfer/<receiver>` is a transfer from the authenticated user to `receiver`. */
  lemma TransferRoute(id: Id, receiver: Id, amount: int, description: string)
    requires '/' !in receiver
    ensures Execute(id, Some(receiver), amount, description, "/api/v1/statements/transfer/" + receiver)
         == CreateStatementRequest(Some(receiver), Some("transfer"), amount, description, Some(id))
  {
    TypeFollowsStatements(["", "api", "v1"], "transfer", [receiver]);
    TransferUrl(receiver);
  }
}
