/**
 The Konami-code easter egg (keydown handler, script.js:242-260). Each key's `code`
 is pushed onto a buffer that keeps only the last ten; when the buffer equals the
 code sequence the rainbow animation runs and the buffer is cleared.

 The handler is stated for any ten-key `secret`; the script's one is `Code`.
 */
module Konami {

  const Code: seq<string> := [
    "ArrowUp", "ArrowUp", "ArrowDown", "ArrowDown",
    "ArrowLeft", "ArrowRight", "ArrowLeft", "ArrowRight",
    "KeyB", "KeyA"
  ]

  /** `konamiSequence.length`: how many recent keys the buffer keeps. */
  const Window: nat := 10

  datatype Press = Press(buffer: seq<string>, fired: bool)

  /** The last `n` elements of `s`, or all of `s` when it is shorter. */
  function Last<T>(s: seq<T>, n: nat): (r: seq<T>)
    ensures |r| == if |s| < n then |s| else n
    ensures r == s[|s| - |r|..]
  {
    if |s| <= n then s else s[|s| - n..]
  }

  /** One keydown with key code `key`: push it, drop the oldest key once there are
      more than ten, and clear the buffer when it spells the secret. */
  function KeyDown(buffer: seq<string>, key: string, secret: seq<string>): (p: Press)
    requires |buffer| <= Window && |secret| == Window
    ensures |p.buffer| <= Window
    ensures p.fired <==> Last(buffer + [key], Window) == secret
    ensures p.fired ==> p.buffer == [] && key == secret[Window - 1]
    ensures !p.fired ==> p.buffer == Last(buffer + [key], Window)
  {
    var pushed := buffer + [key];
    var kept := if |pushed| > |secret| then pushed[1..] else pushed;
    assert kept == Last(pushed, Window);
    assert kept[|kept| - 1] == key;
    if kept == secret then Press([], true) else Press(kept, false)
  }

  datatype Feed = Feed(buffer: seq<string>, triggers: nat)

  /** A run of keydowns. */
  function Type(buffer: seq<string>, keys: seq<string>, secret: seq<string>): (f: Feed)
    requires |buffer| <= Window && |secret| == Window
    ensures |f.buffer| <= Window
  {
    if keys == [] then Feed(buffer, 0)
    else
      var before := Type(buffer, keys[..|keys| - 1], secret);
      var p := KeyDown(before.buffer, keys[|keys| - 1], secret);
      Feed(p.buffer, before.triggers + (if p.fired then 1 else 0))
  }

  /** Keeping the last ten after appending one element. */
  lemma LastSnoc<T>(s: seq<T>, x: T)
    ensures Last(Last(s, Window) + [x], Window) == Last(s + [x], Window)
  {
  }

  /** The secret's last key occurs nowhere earlier in it. */
  ghost predicate LastKeyUnique(secret: seq<string>)
    requires |secret| == Window
  {
    forall i :: 0 <= i < Window - 1 ==> secret[i] != secret[Window - 1]
  }

  /** `Type` unfolded at an appended key. */
  lemma TypeSnoc(buffer: seq<string>, keys: seq<string>, key: string, secret: seq<string>)
    requires |buffer| <= Window && |secret| == Window
    ensures var before := Type(buffer, keys, secret);
      var p := KeyDown(before.buffer, key, secret);
      Type(buffer, keys + [key], secret) == Feed(p.buffer, before.triggers + (if p.fired then 1 else 0))
  {
    assert (keys + [key])[..|keys|] == keys;
  }

  /** Typing the first `j` keys of such a secret, for `j` below ten, never fires,
      because only its last key can complete it; the buffer then ends with those keys. */
  lemma {:induction false} PrefixDoesNotFire(buffer: seq<string>, secret: seq<string>, j: nat)
    requires |buffer| <= Window && |secret| == Window && LastKeyUnique(secret) && j < Window
    ensures Type(buffer, secret[..j], secret) == Feed(Last(buffer + secret[..j], Window), 0)
  {
    if j > 0 {
      var prefix, key := secret[..j - 1], secret[j - 1];
      assert secret[..j] == prefix + [key];
      PrefixDoesNotFire(buffer, secret, j - 1);
      TypeSnoc(buffer, prefix, key, secret);
      var before := Last(buffer + prefix, Window);
      assert key != secret[Window - 1];
      assert !KeyDown(before, key, secret).fired;
      assert buffer + (prefix + [key]) == (buffer + prefix) + [key];
      LastSnoc(buffer + prefix, key);
    }
  }

  /** Whatever was typed before, typing such a secret fires exactly once, on its last
      key, and leaves the buffer empty. */
  lemma SecretAlwaysFires(buffer: seq<string>, secret: seq<string>)
    requires |buffer| <= Window && |secret| == Window && LastKeyUnique(secret)
    ensures Type(buffer, secret, secret) == Feed([], 1)
  {
    var n := Window - 1;
    PrefixDoesNotFire(buffer, secret, n);
    assert secret[..n + 1] == secret;
    var before := Last(buffer + secret[..n], Window);
    assert buffer + secret == (buffer + secret[..n]) + [secret[n]];
    LastSnoc(buffer + secret[..n], secret[n]);
    assert Last(buffer + secret, Window) == secret;
    assert KeyDown(before, secret[n], secret).fired;
  }

  /** Only the script's last key, "KeyA", completes the code. */
  lemma CodeLastKeyUnique()
    ensures |Code| == Window && LastKeyUnique(Code)
  {
    forall i | 0 <= i < Window - 1
      ensures Code[i] != Code[Window - 1]
    {
      assert Code[i] in {"ArrowUp", "ArrowDown", "ArrowLeft", "ArrowRight", "KeyB"};
      assert "KeyB"[3] != "KeyA"[3];
    }
  }

  /** Whatever was typed before, typing Up Up Down Down Left Right Left Right B A
      triggers the easter egg exactly once, on the A, and empties the buffer. */
  lemma CodeAlwaysFires(buffer: seq<string>)
    requires |buffer| <= Window
    ensures Type(buffer, Code, Code) == Feed([], 1)
  {
    CodeLastKeyUnique();
    SecretAlwaysFires(buffer, Code);
  }
}
