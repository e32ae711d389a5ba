/**
 Comma-separated lists: the writer's `','.join` and the reader's character loop, which collects each
 item in a token buffer shared by all lists and stores its value in a fixed array of slots.
 */
module CommaList {
  import opened Decimal

  /** The longest text the 60-character token buffer holds beside its terminator. */
  const TOKEN_LIMIT: nat := 59
  const SLOTS: nat := 20

  function Join(items: seq<string>): string {
    if items == [] then ""
    else if |items| == 1 then items[0]
    else items[0] + "," + Join(items[1..])
  }

  function Split(s: string): (items: seq<string>)
    ensures |items| > 0
  {
    if s == "" then [""]
    else if s[0] == ',' then [""] + Split(s[1..])
    else var rest := Split(s[1..]); [[s[0]] + rest[0]] + rest[1..]
  }

  /** The text the loop can read without writing past a slot or the token buffer. */
  predicate Fits(s: string) {
    && |Split(s)| <= SLOTS
    && forall i :: 0 <= i < |Split(s)| ==> |Split(s)[i]| <= TOKEN_LIMIT
  }

  function Values(items: seq<string>): seq<int> {
    seq(|items|, i requires 0 <= i < |items| => Atoi(items[i]))
  }

  datatype Outcome = Filled(count: nat) | Overrun

  class ListReader {
    var token: string

    constructor ()
      ensures token == ""
    {
      token := "";
    }

    /** Stores the finished token in slot m and empties the buffer. */
    method Store(slots: array<int>, m: nat, ghost done: seq<string>, ghost prior: seq<int>)
      requires m == |done| < slots.Length == |prior| && slots[..] == Values(done) + prior[m..]
      modifies this, slots
      ensures token == "" && slots[..] == Values(done + [old(token)]) + prior[m + 1..]
    {
      slots[m] := Atoi(token);
      token := "";
    }

    /**
     Reads exactly the lists that fit.  The slots behind the last item keep their values and the shared
     token buffer is empty again for the next list.
     */
    method ReadList(text: string, slots: array<int>) returns (r: Outcome)
      requires token == "" && slots.Length == 20
      modifies this, slots
      ensures r.Filled? <==> Fits(text)
      ensures r.Filled? ==>
                && r.count == |Split(text)| <= 20
                && slots[..] == Values(Split(text)) + old(slots[..])[r.count..]
                && token == ""
    {
      ghost var done: seq<string> := [];
      var m, n := 0, 0;
      NothingRead(text);
      hide Progress, Split, Fits, Atoi;
      while n < |text|
        invariant 0 <= n <= |text| && m == |done| <= SLOTS
        invariant Progress(text, n, done, token)
        invariant slots[..] == Values(done) + old(slots[..])[m..]
      {
        if text[n] != ',' {
          NextChar(text, n, done, token);
          if |token| == TOKEN_LIMIT {
            return Overrun;
          }
          token := token + [text[n]];
        } else {
          NextComma(text, n, done, token);
          if m == SLOTS {
            return Overrun;
          }
          ghost var item := token;
          Store(slots, m, done, old(slots[..]));
          done := done + [item];
          m := m + 1;
        }
        n := n + 1;
      }
      LastItem(text, done, token);
      if m == SLOTS {
        return Overrun;
      }
      Store(slots, m, done, old(slots[..]));
      return Filled(m + 1);
    }
  }

  /** The items finished and the item under construction after n characters. */
  ghost predicate Progress(text: string, n: nat, done: seq<string>, token: string) {
    && n <= |text| && ',' !in token && |token| <= TOKEN_LIMIT
    && Split(text) == done + Split(token + text[n..])
    && forall i :: 0 <= i < |done| ==> |done[i]| <= TOKEN_LIMIT
  }

  lemma NothingRead(text: string)
    ensures Progress(text, 0, [], "")
  {
    assert "" + text[0..] == text;
  }

  lemma NextChar(text: string, n: nat, done: seq<string>, token: string)
    requires n < |text| && text[n] != ',' && Progress(text, n, done, token)
    ensures |token| <= TOKEN_LIMIT
    ensures if |token| < TOKEN_LIMIT then Progress(text, n + 1, done, token + [text[n]]) else !Fits(text)
  {
    var longer := token + [text[n]];
    assert token + text[n..] == longer + text[n + 1..];
    SplitLongHead(longer, text[n + 1..]);
    assert Split(text)[|done|] == Split(token + text[n..])[0];
  }

  lemma NextComma(text: string, n: nat, done: seq<string>, token: string)
    requires n < |text| && text[n] == ',' && Progress(text, n, done, token)
    ensures Progress(text, n + 1, done + [token], "")
    ensures |done| == SLOTS ==> !Fits(text)
  {
    assert token + text[n..] == token + "," + text[n + 1..];
    assert "" + text[n + 1..] == text[n + 1..];
    SplitAtComma(token, text[n + 1..]);
    assert done + ([token] + Split(text[n + 1..])) == (done + [token]) + Split(text[n + 1..]);
  }

  lemma LastItem(text: string, done: seq<string>, token: string)
    requires Progress(text, |text|, done, token)
    ensures Split(text) == done + [token]
    ensures Fits(text) <==> |done| < SLOTS
  {
    hide Split;
    assert token + text[|text|..] == token;
    SplitPlain(token);
    var items := done + [token];
    assert Split(text) == items;
    assert forall i :: 0 <= i < |items| ==> |items[i]| <= TOKEN_LIMIT;
  }

  lemma {:induction false} SplitPlain(t: string)
    requires ',' !in t
    ensures Split(t) == [t]
  {
    if t != "" {
      SplitPlain(t[1..]);
      assert [t[0]] + t[1..] == t;
    }
  }

  lemma {:induction false} SplitAtComma(t: string, rest: string)
    requires ',' !in t
    ensures Split(t + "," + rest) == [t] + Split(rest)
  {
    if t == "" {
      assert (t + "," + rest)[1..] == rest;
    } else {
      assert (t + "," + rest)[1..] == t[1..] + "," + rest;
      SplitAtComma(t[1..], rest);
      assert [t[0]] + t[1..] == t;
    }
  }

  lemma {:induction false} SplitLongHead(t: string, rest: string)
    requires ',' !in t
    ensures |Split(t + rest)[0]| >= |t|
  {
    if t != "" {
      assert (t + rest)[1..] == t[1..] + rest;
      SplitLongHead(t[1..], rest);
    }
  }

  lemma {:induction false} SplitJoin(items: seq<string>)
    requires items != [] && forall i :: 0 <= i < |items| ==> ',' !in items[i]
    ensures Split(Join(items)) == items
  {
    if |items| == 1 {
      SplitPlain(items[0]);
    } else {
      SplitJoin(items[1..]);
      SplitAtComma(items[0], Join(items[1..]));
    }
  }

  function Strings(xs: seq<int>): seq<string> {
    seq(|xs|, i requires 0 <= i < |xs| => ToString(xs[i]))
  }

  /** What was joined is what the loop stores, for every list the loop can hold. */
  lemma RoundTrip(xs: seq<int>)
    requires xs != []
    ensures Values(Split(Join(Strings(xs)))) == xs
    ensures Fits(Join(Strings(xs))) <==>
              |xs| <= 20 && forall i :: 0 <= i < |xs| ==> |ToString(xs[i])| < 60
  {
    SplitJoin(Strings(xs));
    assert forall i :: 0 <= i < |xs| ==> Strings(xs)[i] == ToString(xs[i]);
    forall i | 0 <= i < |xs|
      ensures Atoi(Strings(xs)[i]) == xs[i]
    {
      assert ToString(xs[i]) + "" == ToString(xs[i]);
      AtoiToString(xs[i], "");
    }
  }
}
