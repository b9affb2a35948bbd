/** TermIO replies to a request exactly once, and only if it is not quick: what each command makes of the replies. */
module Sana2Replies {
  import opened Sana2Requests
  import opened Sana2Accounts
  import opened Sana2Invariants

  lemma FinishAnswers(d: Unit, id: Id, r: Request)
    requires SameAnswer(Of(d.reqs, id), r)
    ensures AnswersKept(d, Finish(d, id, r))
  {
    ShrinksFinish(d, id, r);
  }

  /** Only the request records and the completions matter. */
  lemma AnswersFrom(d: Unit, before: Unit, d': Unit)
    requires before.reqs == d.reqs && before.done == d.done && AnswersKept(before, d')
    ensures AnswersKept(d, d')
  {
    forall x ensures AnswerKept(d, d', x) {
      assert AnswerKept(before, d', x);
    }
  }

  lemma OnlineAnswers(d: Unit, id: Id, env: Env)
    ensures AnswersKept(d, GoOnline(d, id, env))
  {
    if !d.config {
      FinishAnswers(d, id, Of(d.reqs, id).(error := S2ERR_BAD_STATE, wire := NOT_CONFIGURED));
    } else {
      var up := RaiseUnit(d, env);
      if !d.online {
        var raised := d.(irq := Install(d.irq, env.signal), online := true);
        ShrinksEvent(raised, ONLINE);
        AnswersFrom(d, raised, up);
      }
      FinishAnswers(up, id, Of(up.reqs, id));
      AnswersTrans(d, up, GoOnline(d, id, env));
    }
  }

  lemma LoweredAnswers(d: Unit)
    ensures AnswersKept(d, Lowered(d))
  {
    var low := d.(online := false);
    var told := DoEvent(low, OFFLINE);
    ShrinksEvent(low, OFFLINE);
    ShrinksFlush(told);
    AnswersTrans(low, told, FlushUnit(told));
    AnswersFrom(d, low, Lowered(d));
  }

  lemma OfflineAnswers(d: Unit, id: Id)
    ensures AnswersKept(d, GoOffline(d, id))
  {
    var down := DropUnit(d);
    var last := GoOffline(d, id);
    FinishAnswers(down, id, Of(down.reqs, id));
    if d.online {
      LoweredAnswers(d);
      AnswersFrom(Lowered(d), down, last);
      AnswersTrans(d, Lowered(d), last);
    }
  }

  lemma FlushAnswers(d: Unit, id: Id)
    ensures AnswersKept(d, FlushCommand(d, id))
  {
    var flushed := FlushUnit(d);
    ShrinksFlush(d);
    FinishAnswers(flushed, id, Of(flushed.reqs, id));
    AnswersTrans(d, flushed, FlushCommand(d, id));
  }

  lemma PendingAnswers(d: Unit, id: Id)
    ensures AnswersKept(d, Pending(d, id))
  {
  }

  lemma ReadAnswers(d: Unit, id: Id)
    ensures AnswersKept(d, ReadPacket(d, id))
  {
    var k := OpenerAt(d.openers, Of(d.reqs, id).opener);
    if d.online && k < |d.openers| {
      PendingAnswers(d, id);
      AnswersTo(d, Pending(d, id), ReadPacket(d, id));
    } else if d.online {
      FinishAnswers(d, id, Of(d.reqs, id).(error := S2ERR_BAD_ARGUMENT, wire := GENERIC_ERROR));
    } else {
      FinishAnswers(d, id, Of(d.reqs, id).(error := S2ERR_OUTOFSERVICE, wire := UNIT_OFFLINE));
    }
  }

  lemma AnswersTo(d: Unit, d': Unit, after: Unit)
    requires after.reqs == d'.reqs && after.done == d'.done && AnswersKept(d, d')
    ensures AnswersKept(d, after)
  {
    forall x ensures AnswerKept(d, after, x) {
      assert AnswerKept(d, d', x);
    }
  }

  lemma ReadOrphanAnswers(d: Unit, id: Id)
    ensures AnswersKept(d, ReadOrphanPacket(d, id))
  {
    if d.online {
      PendingAnswers(d, id);
      AnswersTo(d, Pending(d, id), ReadOrphanPacket(d, id));
    } else {
      FinishAnswers(d, id, Of(d.reqs, id).(error := S2ERR_OUTOFSERVICE, wire := UNIT_OFFLINE));
    }
  }

  lemma AwaitAnswers(d: Unit, id: Id)
    ensures AnswersKept(d, AwaitEvent(d, id))
  {
    var wire := Of(d.reqs, id).wire;
    if Satisfied(d, wire) {
      FinishAnswers(d, id, Of(d.reqs, id).(error := 0, wire := wire * {ONLINE, OFFLINE}));
    }
  }

  lemma BroadcastAnswers(d: Unit, id: Id, env: Env)
    requires d.tx == [] && id !in d.done && Of(d.reqs, id).command == Broadcast
    ensures AnswersKept(d, WritePacket(ToAll(d, id), id, env))
  {
    WriteShrinks(ToAll(d, id), id, env);
    assert AnswersKept(d, ToAll(d, id));
    AnswersTrans(d, ToAll(d, id), WritePacket(ToAll(d, id), id, env));
  }

  lemma TransferAnswers(d: Unit, id: Id, env: Env)
    requires d.tx == [] && id !in d.done && IsTransfer(Of(d.reqs, id).command)
    ensures AnswersKept(d, Execute(d, id, env))
  {
    match Of(d.reqs, id).command {
      case Write => WriteShrinks(d, id, env);
      case Multicast => WriteShrinks(d, id, env);
      case Broadcast => BroadcastAnswers(d, id, env);
      case Read => ReadAnswers(d, id);
      case ReadOrphan => ReadOrphanAnswers(d, id);
      case OnEvent => AwaitAnswers(d, id);
    }
  }

  lemma AnswerAnswers(d: Unit, id: Id, env: Env)
    requires IsAnswer(Of(d.reqs, id).command)
    ensures AnswersKept(d, Execute(d, id, env))
  {
    if Of(d.reqs, id).command == Query || Of(d.reqs, id).command == QueryNow {
      QueryAnswers(d, id, env);
    } else {
      FinishAnswers(d, id, Of(d.reqs, id).(error := S2ERR_NOT_SUPPORTED, wire := GENERIC_ERROR));
    }
  }

  lemma ModeAnswers(d: Unit, id: Id, env: Env)
    requires Of(d.reqs, id).command == Online || Of(d.reqs, id).command == Configure
    ensures AnswersKept(d, Execute(d, id, env))
  {
    if Of(d.reqs, id).command == Online {
      OnlineAnswers(d, id, env);
    } else {
      ConfigureAnswers(d, id, env);
    }
  }

  lemma ControlAnswers(d: Unit, id: Id, env: Env)
    requires !IsTransfer(Of(d.reqs, id).command)
    ensures AnswersKept(d, Execute(d, id, env))
  {
    var c := Of(d.reqs, id).command;
    if c == Flush {
      FlushAnswers(d, id);
    } else if c == Offline {
      OfflineAnswers(d, id);
    } else if IsAnswer(c) {
      AnswerAnswers(d, id, env);
    } else {
      ModeAnswers(d, id, env);
    }
  }

  lemma ConfigureAnswers(d: Unit, id: Id, env: Env)
    ensures AnswersKept(d, ConfigureUnit(d, id, env))
  {
    if d.config {
      FinishAnswers(d, id, Of(d.reqs, id).(error := S2ERR_BAD_STATE, wire := IS_CONFIGURED));
    } else {
      var configured := d.(station := Of(d.reqs, id).src, config := true);
      OnlineAnswers(configured, id, env);
      AnswersFrom(d, configured, ConfigureUnit(d, id, env));
    }
  }

  lemma QueryAnswers(d: Unit, id: Id, env: Env)
    ensures AnswersKept(d, AnswerQuery(d, id, env))
  {
    if env.error == 0 {
      FinishAnswers(d, id, Of(d.reqs, id));
    } else {
      FinishAnswers(d, id, Of(d.reqs, id).(error := env.error, wire := env.wire));
    }
  }

  /** Performing a request leaves every request replied to as it should be, and reads as quick as they came. */
  lemma PerformAnswers(d: Unit, id: Id, env: Env)
    requires d.tx == [] && id !in d.done
    ensures AnswersKept(d, PerformIO(d, id, env))
  {
    var cleared := Cleared(d, id);
    assert AnswersKept(d, cleared);
    if IsTransfer(Of(cleared.reqs, id).command) {
      TransferAnswers(cleared, id, env);
    } else {
      ControlAnswers(cleared, id, env);
    }
    AnswersTrans(d, cleared, PerformIO(d, id, env));
  }

  lemma BeginAnswers(d: Unit, id: Id, env: Env)
    requires d.tx == [] && id !in d.done && !Of(d.reqs, id).replied
    ensures AnswersKept(d, BeginIO(d, id, env))
  {
    if AtOnce(Of(d.reqs, id).command) {
      PerformAnswers(d, id, env);
    }
  }
}
