// The key file lookup of src/authinfo.c: a tokenizer that advances a position
// through the cached bytes, a slot table rebuilt from them, and the cached answer.
// Each loop is proved against the function of AuthinfoSpec that says what it reads,
// so that what is proved there about printed files, the round trip above all, holds
// of the program's own lookup, the table it rebuilds and the answer it keeps.
module Authinfo {
  import opened Common
  import opened AuthinfoSpec

  // next_token: one token at `pos` into a buffer of `cap` bytes.
  method NextToken(buf: string, pos: nat, cap: nat) returns (ok: bool, out: string, next: nat)
    requires pos <= |buf| && cap > 0
    ensures pos <= next <= |buf|
    ensures ok <==> Next(buf[pos..], cap).Some?
    ensures ok ==> Next(buf[pos..], cap) == Some(Token(out, next - pos)) && pos < next
  {
    hide HeadToken, SkipLen;
    var i := SkipBlanks(buf, pos);
    if i >= |buf| {
      return false, "", i;
    }
    assert buf[pos..][i - pos..] == buf[i..];
    ok := true;
    out, next := ReadToken(buf, i, cap);
  }

  // A '#' comment up to its newline.
  method SkipComment(buf: string, from: nat) returns (i: nat)
    requires from <= |buf|
    ensures from <= i <= |buf| && i == from + CommentLen(buf[from..])
  {
    i := from;
    while i < |buf| && buf[i] != '\n'
      invariant from <= i <= |buf|
      invariant from + CommentLen(buf[from..]) == i + CommentLen(buf[i..])
    {
      assert buf[i..][1..] == buf[i + 1..];
      i := i + 1;
    }
  }

  // The leading whitespace and comments.
  method SkipBlanks(buf: string, pos: nat) returns (i: nat)
    requires pos <= |buf|
    ensures pos <= i <= |buf| && i == pos + SkipLen(buf[pos..])
  {
    hide CommentLen, SkipLen;
    i := pos;
    while i < |buf|
      invariant pos <= i <= |buf|
      invariant pos + SkipLen(buf[pos..]) == i + SkipLen(buf[i..])
      decreases |buf| - i
    {
      var ch := buf[i];
      BlanksStep(buf[i..]);
      if ch == ' ' || ch == '\t' || ch == '\r' || ch == '\n' {
        assert buf[i..][1..] == buf[i + 1..];
        i := i + 1;
        continue;
      }
      if ch == '#' {
        var end := SkipComment(buf, i);
        assert buf[i..][end - i..] == buf[end..];
        i := end;
        continue;
      }
      return;
    }
    assert buf[i..] == "";
  }

  // A quoted token loses its quotes.
  method ReadQuoted(buf: string, start: nat, cap: nat) returns (out: string, i: nat)
    requires start < |buf| && (buf[start] == '\'' || buf[start] == '"') && cap > 0
    ensures start < i <= |buf|
    ensures HeadToken(buf[start..], cap) == Token(out, i - start)
  {
    hide QuotedLen;
    out := "";
    i := start + 1;
    var quote := buf[start];
    ghost var rest := buf[start + 1..];
    assert buf[start..][1..] == rest;
    while i < |buf| && buf[i] != quote
      invariant start < i <= |buf|
      invariant start + 1 + QuotedLen(rest, quote) == i + QuotedLen(buf[i..], quote)
      invariant out == Clip(rest[..i - start - 1], cap)
    {
      RunsStep(buf[i..], quote);
      assert buf[i..][1..] == buf[i + 1..];
      out := Store(rest[..i - start - 1], out, buf[i], cap);
      assert rest[..i - start - 1] + [buf[i]] == rest[..i - start];
      i := i + 1;
    }
    assert buf[start..][1..i - start] == rest[..i - start - 1];
    assert i == |buf| ==> buf[i..] == "";
    if i < |buf| {
      RunsStep(buf[i..], quote);
      i := i + 1;
    }
  }

  // Any other token is a run.
  method ReadRun(buf: string, start: nat, cap: nat) returns (out: string, i: nat)
    requires start < |buf| && !EndsRun(buf[start]) && buf[start] != '\'' && buf[start] != '"' && cap > 0
    ensures start < i <= |buf|
    ensures HeadToken(buf[start..], cap) == Token(out, i - start)
  {
    hide RunLen;
    out := "";
    i := start;
    ghost var s := buf[start..];
    while i < |buf| && !Blank(buf[i]) && buf[i] != '#'
      invariant start <= i <= |buf|
      invariant start + RunLen(s) == i + RunLen(buf[i..])
      invariant out == Clip(s[..i - start], cap)
    {
      RunsStep(buf[i..], '"');
      assert buf[i..][1..] == buf[i + 1..];
      out := Store(s[..i - start], out, buf[i], cap);
      assert s[..i - start] + [buf[i]] == s[..i - start + 1];
      i := i + 1;
    }
    assert i == |buf| ==> buf[i..] == "";
    if i < |buf| {
      RunsStep(buf[i..], '"');
    }
  }

  // What does not fit the buffer is dropped.
  method ReadToken(buf: string, start: nat, cap: nat) returns (out: string, i: nat)
    requires start < |buf| && !EndsRun(buf[start]) && cap > 0
    ensures start < i <= |buf|
    ensures HeadToken(buf[start..], cap) == Token(out, i - start)
  {
    if buf[start] == '\'' || buf[start] == '"' {
      out, i := ReadQuoted(buf, start, cap);
    } else {
      out, i := ReadRun(buf, start, cap);
    }
  }

  // One byte into the output buffer, if there is room for it and the NUL.
  method Store(ghost seen: string, out: string, c: char, cap: nat) returns (more: string)
    requires cap > 0 && out == Clip(seen, cap)
    ensures more == Clip(seen + [c], cap)
  {
    more := out;
    if |out| + 1 < cap {
      more := out + [c];
    }
  }

  // strchr for '='.
  method FindEquals(t: string) returns (n: nat)
    ensures n == EqualsAt(t)
  {
    n := 0;
    while n < |t| && t[n] != '='
      invariant n <= |t| && EqualsAt(t) == n + EqualsAt(t[n..])
    {
      assert t[n..][1..] == t[n + 1..];
      n := n + 1;
    }
  }

  class KeyFile {
    // The cached file and the slots built from it.
    var cache: string
    var cachePath: string
    var cacheValid: bool
    var slots: seq<Slot>
    var slotsValid: bool
    // The pending entry of a rebuild.
    var entry: Entry

    ghost predicate Valid()
      reads this
    {
      && |cache| <= FILE_MAX
      && (slotsValid ==> cacheValid)
      && (slotsValid ==> slots == SlotsOf(cache))
    }

    constructor ()
      ensures Valid() && !cacheValid
    {
      cache, cachePath, cacheValid := "", "", false;
      slots, slotsValid, entry := [], false, CLOSED;
    }

    // cache_load: an absent file is cached as empty, a long one is truncated.
    method CacheLoad(path: string, content: Option<string>)
      modifies this
      ensures Valid() && cacheValid && cachePath == path
      ensures SlotsOf(cache) == SlotsOf(if content.Some? then content.value else "")
    {
      cachePath, cacheValid, slotsValid, slots := path, true, false, [];
      if content.None? {
        cache, slotsValid := "", true;
        return;
      }
      cache := if |content.value| > FILE_MAX then content.value[..FILE_MAX] else content.value;
    }

    // entry_flush.
    method EntryFlush()
      modifies this`slots
      ensures slots == Flush(entry, old(slots))
    {
      if entry.open && entry.havePending && |slots| < SLOTS {
        slots := slots + [Slot(entry.name, entry.pending)];
      }
    }

    // The effect of one key and its value.
    method TakePair(key: string, val: string)
      modifies this`slots, this`entry
      ensures Parsed(entry, slots) == Pair(Parsed(old(entry), old(slots)), key, val)
    {
      if key == "machine" || key == "default" {
        EntryFlush();
        entry := entry.(open := true, name := "", havePending := false);
        if key == "machine" && |val| < MACHINE_MAX {
          entry := entry.(name := val);
        }
      } else if key == "password" {
        if entry.open && val != "" && |val| < SECRET_MAX {
          entry := entry.(pending := val, havePending := true);
        }
      }
    }

    // slots_rebuild.
    method SlotsRebuild()
      requires |cache| <= FILE_MAX && cacheValid
      modifies this`slots, this`slotsValid, this`entry
      ensures slotsValid && slots == SlotsOf(cache)
    {
      hide Next, Pair;
      slots, slotsValid, entry := [], true, CLOSED;
      if |cache| == 0 {
        return;
      }
      var pos := 0;
      assert cache[0..] == cache;
      while true
        invariant pos <= |cache| && slotsValid
        invariant SlotsOf(cache) == Parse(cache[pos..], Parsed(entry, slots))
        decreases |cache| - pos
      {
        var more, tok, next := NextToken(cache, pos, TOKEN_MAX + 1);
        if !more {
          break;
        }
        assert cache[pos..][next - pos..] == cache[next..];
        pos := next;
        var eq := FindEquals(tok);
        if eq < |tok| {
          if eq < TOKEN_MAX {
            TakePair(tok[..eq], tok[eq + 1..]);
          }
          continue;
        }
        if |tok| >= TOKEN_MAX {
          continue;
        }
        if tok == "default" {
          TakePair(tok, "");
          continue;
        }
        var some, val, after := NextToken(cache, pos, TOKEN_MAX);
        if !some {
          break;
        }
        assert cache[pos..][after - pos..] == cache[after..];
        pos := after;
        TakePair(tok, val);
      }
      EntryFlush();
    }

    // nm_authinfo_password; `content` is what reading `path` would give now.
    method Password(machine: string, path: string, content: Option<string>) returns (secret: Option<string>)
      requires Valid()
      modifies this
      ensures Valid()
      ensures machine == "" ==> secret == None && cache == old(cache)
      ensures machine != "" ==> cacheValid && cachePath == path && secret == Lookup(SlotsOf(cache), machine)
      ensures machine != "" && (!old(cacheValid) || old(cachePath) != path) ==>
        secret == Lookup(SlotsOf(if content.Some? then content.value else ""), machine)
      ensures old(cacheValid) && old(cachePath) == path ==> cache == old(cache)
    {
      hide SlotsOf;
      if machine == "" {
        return None;
      }
      if !cacheValid || cachePath != path {
        CacheLoad(path, content);
      }
      if !slotsValid {
        SlotsRebuild();
      }
      for i := 0 to |slots|
        invariant Lookup(slots, machine) == Lookup(slots[i..], machine)
      {
        assert slots[i..][0] == slots[i] && slots[i..][1..] == slots[i + 1..];
        if slots[i].machine == machine {
          return Some(slots[i].secret);
        }
      }
      return None;
    }
  }
}
