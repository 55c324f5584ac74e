/** Request methods: a guess from the first letter, changed when a letter does not fit, recognises exactly the names. */
module HttpMethods {
  import opened Bytes
  import opened HttpTypes
  import opened HttpArms
  import opened HttpMachine
  import opened HttpBulk

  predicate IsLetter(c: byte) { 65 <= c <= 90 || c == 45 }

  lemma NameLetters(m: Method, i: nat)
    requires i < |MethodName(m)|
    ensures IsLetter(MethodName(m)[i])
  {
    if Early(m) { EarlyLetters(m, i); } else { LateLetters(m, i); }
  }

  predicate Early(m: Method) {
    m.DELETE? || m.GET? || m.HEAD? || m.POST? || m.PUT? || m.CONNECT? || m.OPTIONS? || m.TRACE? || m.COPY? || m.LOCK?
    || m.MKCOL? || m.MOVE? || m.PROPFIND? || m.PROPPATCH? || m.SEARCH? || m.UNLOCK?
  }

  lemma EarlyLetters(m: Method, i: nat)
    requires i < |MethodName(m)| && Early(m)
    ensures IsLetter(MethodName(m)[i])
  {
  }

  lemma LateLetters(m: Method, i: nat)
    requires i < |MethodName(m)| && !Early(m)
    ensures IsLetter(MethodName(m)[i])
  {
  }

  predicate Extends(m: Method, n: Method, i: nat, ch: byte) {
    i < |MethodName(n)| && i <= |MethodName(m)| && MethodName(n)[i] == ch && MethodName(n)[..i] == MethodName(m)[..i]
  }

  lemma RegressPost(m: Method, i: nat, ch: byte)
    requires Regress(m, i, ch).Some? && (m.POST? || m.PUT? || m.PROPFIND? || m.CONNECT?)
    ensures Extends(m, Regress(m, i, ch).value, i, ch)
  {
  }

  lemma RegressMkcol(m: Method, i: nat, ch: byte)
    requires Regress(m, i, ch).Some? && m.MKCOL?
    ensures Extends(m, Regress(m, i, ch).value, i, ch)
  {
  }

  lemma RegressUnlock(m: Method, i: nat, ch: byte)
    requires Regress(m, i, ch).Some? && m.UNLOCK?
    ensures Extends(m, Regress(m, i, ch).value, i, ch)
  {
  }

  lemma RegressRest(m: Method, i: nat, ch: byte)
    requires Regress(m, i, ch).Some? && (m.SUBSCRIBE? || m.REPORT? || m.LOCK?)
    ensures Extends(m, Regress(m, i, ch).value, i, ch)
  {
  }

  /** A changed guess agrees with everything read so far, including the letter that did not fit. */
  lemma RegressFits(m: Method, i: nat, ch: byte)
    requires Regress(m, i, ch).Some?
    ensures Extends(m, Regress(m, i, ch).value, i, ch)
  {
    hide Extends;
    if m.MKCOL? {
      RegressMkcol(m, i, ch);
    } else if m.POST? || m.PUT? || m.PROPFIND? || m.CONNECT? {
      RegressPost(m, i, ch);
    } else if m.UNLOCK? {
      RegressUnlock(m, i, ch);
    } else {
      RegressRest(m, i, ch);
    }
  }

  /** The guess after reading `i` letters of the name of `m`. */
  function GuessAfter(m: Method, i: nat): Method {
    if m.PUT? || m.PATCH? || m.PROPFIND? then if i <= 1 then POST else m
    else if m.PROPPATCH? then if i <= 1 then POST else if i <= 4 then PROPFIND else m
    else if m.PURGE? then if i <= 1 then POST else if i <= 2 then PUT else m
    else if m.CHECKOUT? then if i <= 1 then CONNECT else m
    else if m.COPY? then if i <= 2 then CONNECT else m
    else if m.MOVE? || m.MERGE? || m.MSEARCH? then if i <= 1 then MKCOL else m
    else if m.MKACTIVITY? then if i <= 2 then MKCOL else m
    else if m.MKCALENDAR? then if i <= 3 then MKCOL else m
    else if m.SEARCH? || m.SOURCE? then if i <= 1 then SUBSCRIBE else m
    else if m.REBIND? then if i <= 2 then REPORT else m
    else if m.LINK? then if i <= 1 then LOCK else m
    else if m.UNSUBSCRIBE? || m.UNBIND? then if i <= 2 then UNLOCK else m
    else if m.UNLINK? then if i <= 3 then UNLOCK else m
    else m
  }

  lemma GuessFirst(m: Method)
    ensures FirstGuess(MethodName(m)[0]) == Some(GuessAfter(m, 1))
  {
    hide MethodName, FirstGuess, GuessAfter;
    if Early(m) { EarlyFirst(m); } else { LateFirst(m); }
  }

  lemma EarlyFirst(m: Method)
    requires Early(m)
    ensures FirstGuess(MethodName(m)[0]) == Some(GuessAfter(m, 1))
  {
  }

  lemma LateFirst(m: Method)
    requires !Early(m)
    ensures FirstGuess(MethodName(m)[0]) == Some(GuessAfter(m, 1))
  {
  }

  lemma GuessBegins(ch: byte)
    ensures FirstGuess(ch).Some? ==> var name := MethodName(FirstGuess(ch).value); name != [] && name[..1] == [ch]
  {
  }

  predicate GoesOn(m: Method, i: nat)
    requires i < |MethodName(m)|
  {
    var g, ch := GuessAfter(m, i), MethodName(m)[i];
    if At(MethodName(g), i) == ch then GuessAfter(m, i + 1) == g else Regress(g, i, ch) == Some(GuessAfter(m, i + 1))
  }

  lemma GuessP(m: Method, i: nat)
    requires 1 <= i < |MethodName(m)| && GuessAfter(m, i) != m
    requires m.PUT? || m.PATCH? || m.PROPFIND? || m.PROPPATCH? || m.PURGE?
    ensures GoesOn(m, i)
  {
  }

  lemma GuessM(m: Method, i: nat)
    requires 1 <= i < |MethodName(m)| && GuessAfter(m, i) != m
    requires m.MOVE? || m.MERGE? || m.MSEARCH? || m.MKACTIVITY? || m.MKCALENDAR?
    ensures GoesOn(m, i)
  {
  }

  lemma GuessUn(m: Method, i: nat)
    requires 1 <= i < |MethodName(m)| && GuessAfter(m, i) != m
    requires m.UNSUBSCRIBE? || m.UNBIND?
    ensures GoesOn(m, i)
  {
  }

  lemma GuessLink(m: Method, i: nat)
    requires 1 <= i < |MethodName(m)| && GuessAfter(m, i) != m
    requires m.UNLINK? || m.LINK?
    ensures GoesOn(m, i)
  {
  }

  lemma GuessC(m: Method, i: nat)
    requires 1 <= i < |MethodName(m)| && GuessAfter(m, i) != m
    requires m.CHECKOUT? || m.COPY?
    ensures GoesOn(m, i)
  {
  }

  lemma GuessS(m: Method, i: nat)
    requires 1 <= i < |MethodName(m)| && GuessAfter(m, i) != m
    requires m.SEARCH? || m.SOURCE? || m.REBIND?
    ensures GoesOn(m, i)
  {
  }

  lemma GuessNext(m: Method, i: nat)
    requires 1 <= i < |MethodName(m)|
    ensures GoesOn(m, i)
  {
    hide MethodName, Regress;
    if GuessAfter(m, i) != m {
      if m.PUT? || m.PATCH? || m.PROPFIND? || m.PROPPATCH? || m.PURGE? {
        GuessP(m, i);
      } else if m.MOVE? || m.MERGE? || m.MSEARCH? || m.MKACTIVITY? || m.MKCALENDAR? {
        GuessM(m, i);
      } else if m.UNSUBSCRIBE? || m.UNBIND? {
        GuessUn(m, i);
      } else if m.UNLINK? || m.LINK? {
        GuessLink(m, i);
      } else if m.CHECKOUT? || m.COPY? {
        GuessC(m, i);
      } else {
        GuessS(m, i);
      }
    }
  }

  lemma GuessLast(m: Method)
    ensures GuessAfter(m, |MethodName(m)|) == m
  {
  }

  // ---- the machine on a method name ----

  /** Where a request begins, if `ch` is its first byte; for a parser of both types an `H` may also begin a response. */
  predicate AtStart(cfg: Config, m: Machine, ch: byte) {
    MachineInv(cfg, m) && !Stopped(m) && (m.f.state.StartReq? || (m.f.state.StartReqOrRes? && ch != 72))
  }

  lemma FirstLetter(cfg: Config, m: Machine, ch: byte)
    requires AtStart(cfg, m, ch) && ch != CR && ch != LF && m.f.nread < cfg.maxHeader
    ensures var r := Step(cfg, m, ch);
            if IsAlpha(ch) && FirstGuess(ch).Some?
            then !Stopped(r) && r.f.state.ReqMethod? && r.f.index == 1 && r.f.v.meth == FirstGuess(ch).value
              && r.f.nread == m.f.nread + 1 && r.f.v.ptype.Request?
            else !r.f.errno.OK?
  {
    assert m.f.state.StartReq? ==> m.f.v.ptype.Request?;
    hide FirstGuess, IsAlpha, Inv, Fits, NotesOk;
    CountedKeeps(m.f);
  }

  lemma NextLetter(cfg: Config, m: Machine, ch: byte)
    requires MachineInv(cfg, m) && !Stopped(m) && m.f.state.ReqMethod? && m.f.nread < cfg.maxHeader
    ensures var r := Step(cfg, m, ch);
            var want, other := At(MethodName(m.f.v.meth), m.f.index), Regress(m.f.v.meth, m.f.index, ch);
            if ch != 0 && ch == SP && want == 0 then !Stopped(r) && r.f.state.ReqSpacesBeforeUrl? && r.f.v == m.f.v
            else if ch != 0 && (ch == want || (IsLetter(ch) && other.Some?))
            then !Stopped(r) && r.f.state.ReqMethod? && r.f.index == m.f.index + 1 && r.f.nread == m.f.nread + 1
                 && r.f.v.meth == if ch == want then m.f.v.meth else other.value
            else !r.f.errno.OK?
  {
    hide Regress, MethodName, Inv, Fits, NotesOk;
    CountedKeeps(m.f);
  }

  /** What has been read of a method name is a prefix of the current guess. */
  predicate Reading(r: Machine, read: seq<byte>) {
    !Stopped(r) && r.f.state.ReqMethod? && r.f.index == |read| <= |MethodName(r.f.v.meth)|
      && read == MethodName(r.f.v.meth)[..|read|]
  }

  lemma ReadFirst(cfg: Config, m: Machine, ch: byte)
    requires AtStart(cfg, m, ch) && ch != CR && ch != LF && m.f.nread < cfg.maxHeader
    ensures var r := Step(cfg, m, ch);
            r.f.errno.OK? ==> !Stopped(r) && Reading(r, [ch]) && r.f.nread == m.f.nread + 1
  {
    hide Step, MachineInv, MethodName, FirstGuess;
    FirstLetter(cfg, m, ch);
    GuessBegins(ch);
  }

  lemma ReadNext(cfg: Config, m: Machine, read: seq<byte>, ch: byte)
    requires MachineInv(cfg, m) && !Stopped(m) && Reading(m, read) && m.f.nread < cfg.maxHeader && ch != SP
    ensures var r := Step(cfg, m, ch);
            r.f.errno.OK? ==> !Stopped(r) && Reading(r, read + [ch]) && r.f.nread == m.f.nread + 1
  {
    hide Step, Regress, MethodName;
    NextLetter(cfg, m, ch);
    var other := Regress(m.f.v.meth, m.f.index, ch);
    if other.Some? { RegressFits(m.f.v.meth, m.f.index, ch); }
  }

  lemma {:induction false} ReadOn(cfg: Config, m: Machine, read: seq<byte>, rest: seq<byte>)
    requires MachineInv(cfg, m) && !Stopped(m) && Reading(m, read) && m.f.nread + |rest| <= cfg.maxHeader && SP !in rest
    ensures
      var r := Run(cfg, m, rest);
      r.f.errno.OK? ==> !Stopped(r) && Reading(r, read + rest) && r.f.nread == m.f.nread + |rest|
    decreases |rest|
  {
    hide Step, MachineInv, Reading;
    if rest == [] {
      assert read + rest == read;
    } else {
      ReadNext(cfg, m, read, rest[0]);
      var s := Step(cfg, m, rest[0]);
      assert read + [rest[0]] + rest[1..] == read + rest;
      if s.f.errno.OK? { ReadOn(cfg, s, read + [rest[0]], rest[1..]); }
    }
  }

  lemma ReadAll(cfg: Config, m: Machine, token: seq<byte>)
    requires token != [] && AtStart(cfg, m, token[0]) && token[0] != CR && token[0] != LF && SP !in token
    requires m.f.nread + |token| <= cfg.maxHeader
    ensures
      var r := Run(cfg, m, token);
      r.f.errno.OK? ==> !Stopped(r) && Reading(r, token) && r.f.nread == m.f.nread + |token| && r.f.v.ptype.Request?
  {
    hide Step, MachineInv, Reading;
    FirstLetter(cfg, m, token[0]);
    ReadFirst(cfg, m, token[0]);
    var s := Step(cfg, m, token[0]);
    assert [token[0]] + token[1..] == token;
    if s.f.errno.OK? {
      ReadOn(cfg, s, [token[0]], token[1..]);
      RunType(cfg, s, token[1..]);
    }
  }

  /** Every name is read to its end. */
  lemma {:induction false} NameAccepted(cfg: Config, m: Machine, x: Method, i: nat)
    requires 1 <= i <= |MethodName(x)| && AtStart(cfg, m, MethodName(x)[0]) && m.f.nread + i <= cfg.maxHeader
    ensures var r := Run(cfg, m, MethodName(x)[..i]);
            !Stopped(r) && r.f.state.ReqMethod? && r.f.index == i && r.f.v.meth == GuessAfter(x, i)
              && r.f.nread == m.f.nread + i
    decreases i
  {
    hide Step, MachineInv, Regress, MethodName, GuessAfter, FirstGuess;
    var read := MethodName(x)[..i];
    RunSnoc(cfg, m, read);
    assert read[..i - 1] == MethodName(x)[..i - 1];
    NameLetters(x, i - 1);
    if i == 1 {
      assert read[..0] == [];
      FirstLetter(cfg, m, read[0]);
      GuessFirst(x);
      NameStart(x);
    } else {
      NameAccepted(cfg, m, x, i - 1);
      NextLetter(cfg, Run(cfg, m, read[..i - 1]), read[i - 1]);
      GuessNext(x, i - 1);
    }
  }

  lemma NameStart(x: Method)
    ensures IsAlpha(MethodName(x)[0])
  {
  }

  predicate IsName(token: seq<byte>) { exists x :: token == MethodName(x) }

  /** A space ends a name, and nothing else. */
  lemma NameEnds(cfg: Config, r: Machine, token: seq<byte>)
    requires MachineInv(cfg, r) && !Stopped(r) && Reading(r, token) && r.f.nread < cfg.maxHeader
    ensures
      var s := Step(cfg, r, SP);
      && (s.f.errno.OK? <==> token == MethodName(r.f.v.meth))
      && (s.f.errno.OK? ==> s.f.state.ReqSpacesBeforeUrl? && s.f.v == r.f.v)
  {
    hide Step, MachineInv, MethodName, Regress;
    NextLetter(cfg, r, SP);
    if r.f.index < |MethodName(r.f.v.meth)| { NameLetters(r.f.v.meth, r.f.index); }
    assert MethodName(r.f.v.meth)[..|MethodName(r.f.v.meth)|] == MethodName(r.f.v.meth);
  }

  /** What becomes of a token before a space: a request method if it is one of the names, and only then. */
  predicate Recognised(r: Machine, token: seq<byte>) {
    && (r.f.errno.OK? && r.f.v.ptype.Request? <==> IsName(token))
    && (IsName(token) ==> r.f.state.ReqSpacesBeforeUrl? && token == MethodName(r.f.v.meth))
  }

  lemma RequestRecognised(cfg: Config, m: Machine, token: seq<byte>)
    requires token != [] && AtStart(cfg, m, token[0]) && token[0] != CR && token[0] != LF && SP !in token
    requires m.f.nread + |token| < cfg.maxHeader
    ensures Recognised(Run(cfg, m, token + [SP]), token)
  {
    hide Step, MachineInv, MethodName, Regress, GuessAfter;
    ReadAll(cfg, m, token);
    RunSnoc(cfg, m, token + [SP]);
    assert (token + [SP])[..|token|] == token;
    var r := Run(cfg, m, token);
    if IsName(token) {
      var x :| token == MethodName(x);
      NameAccepted(cfg, m, x, |token|);
      assert MethodName(x)[..|token|] == token;
      GuessLast(x);
    }
    if !Stopped(r) {
      NameEnds(cfg, r, token);
      assert token == MethodName(r.f.v.meth) ==> IsName(token);
    }
  }

  // ---- an `H` for a parser of both types ----

  predicate AtBoth(cfg: Config, m: Machine) { MachineInv(cfg, m) && !Stopped(m) && m.f.state.StartReqOrRes? }

  lemma FirstH(cfg: Config, m: Machine)
    requires AtBoth(cfg, m) && m.f.nread < cfg.maxHeader
    ensures var r := Step(cfg, m, 72); !Stopped(r) && r.f.state.ResOrRespH? && r.f.nread == m.f.nread + 1
  {
    hide Inv, Fits, NotesOk;
    CountedKeeps(m.f);
  }

  lemma SecondLetter(cfg: Config, m: Machine, ch: byte)
    requires MachineInv(cfg, m) && !Stopped(m) && m.f.state.ResOrRespH? && m.f.nread < cfg.maxHeader
    ensures
      var r := Step(cfg, m, ch);
      if ch == 84 then !Stopped(r) && r.f.v.ptype.Response?
      else if ch == 69 then
        !Stopped(r) && r.f.state.ReqMethod? && r.f.index == 2 && r.f.v.meth == HEAD && r.f.v.ptype.Request?
        && r.f.nread == m.f.nread + 1
      else !r.f.errno.OK?
  {
    hide Inv, Fits, NotesOk;
    CountedKeeps(m.f);
  }

  lemma OnlyHead(x: Method)
    ensures |MethodName(x)| >= 3 && (MethodName(x)[0] == 72 ==> x == HEAD)
    ensures MethodName(HEAD) == [72, 69, 65, 68]
  {
  }

  predicate BehindHE(cfg: Config, m: Machine) {
    && MachineInv(cfg, m) && !Stopped(m) && m.f.state.ReqMethod? && m.f.index == 2 && m.f.v.meth == HEAD
    && m.f.v.ptype.Request?
  }

  lemma HeadAccepted(cfg: Config, m: Machine)
    requires BehindHE(cfg, m) && m.f.nread + 2 <= cfg.maxHeader
    ensures var r := Run(cfg, m, [65, 68]); !Stopped(r) && r.f.v.meth == HEAD
  {
    hide Step, MachineInv, Regress;
    OnlyHead(HEAD);
    hide MethodName;
    NextLetter(cfg, m, 65);
    NextLetter(cfg, Step(cfg, m, 65), 68);
    RunTwo(cfg, m, 65, 68);
  }

  lemma HeadIsRead(cfg: Config, m: Machine)
    requires BehindHE(cfg, m)
    ensures Reading(m, [72, 69])
  {
    OnlyHead(HEAD);
    hide MethodName;
    assert MethodName(HEAD)[..2] == [72, 69];
  }

  /** `HE` goes on as any method does. */
  lemma HeadEnds(cfg: Config, m: Machine, rest: seq<byte>)
    requires BehindHE(cfg, m) && m.f.nread + |rest| < cfg.maxHeader && SP !in rest
    ensures
      var r, s := Run(cfg, m, rest), Run(cfg, m, rest + [SP]);
      && (s.f.errno.OK? ==> s.f.v.ptype.Request?)
      && (s.f.errno.OK? <==> r.f.errno.OK? && [72, 69] + rest == MethodName(r.f.v.meth))
      && (s.f.errno.OK? ==> s.f.state.ReqSpacesBeforeUrl? && s.f.v == r.f.v)
  {
    hide Step, MachineInv, Regress, MethodName, Reading;
    HeadIsRead(cfg, m);
    ReadOn(cfg, m, [72, 69], rest);
    RunType(cfg, m, rest + [SP]);
    RunSnoc(cfg, m, rest + [SP]);
    assert (rest + [SP])[..|rest|] == rest;
    var r := Run(cfg, m, rest);
    if r.f.errno.OK? { NameEnds(cfg, r, [72, 69] + rest); }
  }

  lemma HeadGoesOn(cfg: Config, m: Machine, rest: seq<byte>)
    requires BehindHE(cfg, m) && m.f.nread + |rest| < cfg.maxHeader && SP !in rest
    ensures Recognised(Run(cfg, m, rest + [SP]), [72, 69] + rest)
  {
    hide Step, Run, MachineInv, MethodName, IsName;
    HeadEnds(cfg, m, rest);
    HeadName(rest);
    if IsName([72, 69] + rest) {
      HeadAccepted(cfg, m);
    } else {
      IsNameOf(Run(cfg, m, rest).f.v.meth);
    }
  }

  lemma IsNameOf(x: Method)
    ensures IsName(MethodName(x))
  {
    hide MethodName;
  }

  lemma HeadName(rest: seq<byte>)
    ensures IsName([72, 69] + rest) ==> rest == [65, 68] && [72, 69] + rest == MethodName(HEAD)
  {
    hide MethodName;
    var token := [72, 69] + rest;
    if IsName(token) {
      var x :| token == MethodName(x);
      OnlyHead(x);
      assert token[2..] == rest;
    }
  }

  lemma HeadRecognised(cfg: Config, m: Machine, token: seq<byte>)
    requires AtBoth(cfg, m) && token != [] && token[0] == 72 && SP !in token && m.f.nread + |token| < cfg.maxHeader
    ensures Recognised(Run(cfg, m, token + [SP]), token)
  {
    hide Step, MachineInv, MethodName, Regress;
    FirstH(cfg, m);
    var m1, all := Step(cfg, m, 72), token + [SP];
    assert all[0] == 72 && Run(cfg, m, all) == Run(cfg, m1, all[1..]);
    assert IsName(token) ==> |token| >= 3 && token[1] == 69 by {
      if IsName(token) {
        var x :| token == MethodName(x);
        OnlyHead(x);
      }
    }
    var second := all[1];
    SecondLetter(cfg, m1, second);
    var m2, rest := Step(cfg, m1, second), all[2..];
    assert all[1..][1..] == rest && Run(cfg, m1, all[1..]) == Run(cfg, m2, rest);
    if second == 84 {
      RunType(cfg, m2, rest);
    } else if second == 69 {
      assert rest == token[2..] + [SP] && [72, 69] + token[2..] == token;
      HeadGoesOn(cfg, m2, token[2..]);
    }
  }

  /**
    * Method recognition: a token before a space is taken for a request exactly when it is one of the names, and sets
    * that method; so does a parser of both types, although an `H` may begin a response there.
    */
  lemma MethodRecognised(cfg: Config, m: Machine, token: seq<byte>)
    requires MachineInv(cfg, m) && !Stopped(m) && (m.f.state.StartReq? || m.f.state.StartReqOrRes?)
    requires token != [] && token[0] != CR && token[0] != LF && SP !in token && m.f.nread + |token| < cfg.maxHeader
    ensures Recognised(Run(cfg, m, token + [SP]), token)
    ensures m.f.state.StartReq? ==> (Run(cfg, m, token + [SP]).f.errno.OK? <==> IsName(token))
  {
    assert m.f.state.StartReq? ==> m.f.v.ptype.Request?;
    hide Step, MachineInv, MethodName, IsName;
    if m.f.state.StartReqOrRes? && token[0] == 72 {
      HeadRecognised(cfg, m, token);
    } else {
      RequestRecognised(cfg, m, token);
      if m.f.state.StartReq? { RunType(cfg, m, token + [SP]); }
    }
  }
}
