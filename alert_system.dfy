/** The class AlertSystem of src/analyzer/alert_system.py. Its fields are
    updated in place by the methods below; every method is tied to the
    operation of the same name in Dispatch, whose lemmas state what runs
    of operations guarantee. */
module Alerts {
  import opened AlertText
  import opened Dispatch

  class AlertSystem {
    /** alert_queue: texts to speak, None being the stop sentinel. */
    var alertQueue: seq<Option<string>>
    /** is_speaking */
    var isSpeaking: bool
    /** last_alert_time: alert key to the time its last alert was accepted. */
    var lastAlertTime: map<string, real>
    /** alert_cooldown */
    const alertCooldown: real
    /** The worker loop has not yet taken the sentinel. */
    var workerRunning: bool
    /** The texts handed to the speech engine so far, in order. */
    var spoken: seq<string>

    function Abstract(): State
      reads this
    {
      State(alertQueue, lastAlertTime, isSpeaking, workerRunning, spoken)
    }

    ghost predicate Valid()
      reads this
    {
      alertCooldown == Cooldown && Wf(Abstract())
    }

    /** __init__: empty queue and table, not speaking, cooldown 3.0, worker started. */
    constructor ()
      ensures Valid()
      ensures alertQueue == [] && lastAlertTime == map[] && !isSpeaking && alertCooldown == 3.0
      ensures workerRunning && spoken == []
      ensures Abstract() == Initial()
    {
      alertQueue := [];
      isSpeaking := false;
      lastAlertTime := map[];
      alertCooldown := 3.0;
      workerRunning := true;
      spoken := [];
    }

    /** add_alert, with the clock reading `now` passed in. */
    method AddAlert(objectLabel: string, position: string, distance: real, now: real)
      requires Valid()
      modifies this
      ensures Valid()
      ensures Abstract() == Dispatch.AddAlert(old(Abstract()), objectLabel, position, distance, now)
      ensures Debounced(old(lastAlertTime), AlertKey(objectLabel, position), now) ==>
                alertQueue == old(alertQueue) && lastAlertTime == old(lastAlertTime)
      ensures !Debounced(old(lastAlertTime), AlertKey(objectLabel, position), now) ==>
                alertQueue == old(alertQueue) + [Some(AlertMessage(objectLabel, position, distance))] &&
                lastAlertTime == old(lastAlertTime)[AlertKey(objectLabel, position) := now]
      ensures isSpeaking == old(isSpeaking) && workerRunning == old(workerRunning) && spoken == old(spoken)
    {
      var alertKey := AlertKey(objectLabel, position);
      if alertKey in lastAlertTime {
        if now - lastAlertTime[alertKey] < alertCooldown {
          return;
        }
      }
      var alertText := AlertMessage(objectLabel, position, distance);
      alertQueue := alertQueue + [Some(alertText)];
      lastAlertTime := lastAlertTime[alertKey := now];
    }

    /** speak_summary: always enqueued, the table is not read or written. */
    method SpeakSummary(summaryText: string)
      requires Valid()
      modifies this
      ensures Valid()
      ensures Abstract() == Dispatch.SpeakSummary(old(Abstract()), summaryText)
      ensures alertQueue == old(alertQueue) + [Some(SummaryMessage(summaryText))]
      ensures lastAlertTime == old(lastAlertTime)
      ensures isSpeaking == old(isSpeaking) && workerRunning == old(workerRunning) && spoken == old(spoken)
    {
      alertQueue := alertQueue + [Some(SummaryMessage(summaryText))];
    }

    /** The first half of a worker pass: get() the head; on the sentinel leave
      the loop, otherwise set is_speaking and hand the text to the engine. */
    method WorkerTake() returns (text: Option<string>)
      requires Valid() && CanTake(Abstract())
      modifies this
      ensures Valid()
      ensures Abstract() == Take(old(Abstract()))
      ensures text == old(alertQueue)[0] && alertQueue == old(alertQueue)[1..]
      ensures isSpeaking <==> text != None
      ensures workerRunning <==> text != None
      ensures spoken == old(spoken) + (if text == None then [] else [text.value])
      ensures lastAlertTime == old(lastAlertTime)
    {
      text := alertQueue[0];
      alertQueue := alertQueue[1..];
      if text == None {
        workerRunning := false;
      } else {
        isSpeaking := true;
        spoken := spoken + [text.value];
      }
    }

    /** The second half of a worker pass: the engine is done speaking. */
    method WorkerFinish()
      requires Valid() && isSpeaking
      modifies this
      ensures Valid()
      ensures Abstract() == Finish(old(Abstract()))
      ensures !isSpeaking
      ensures alertQueue == old(alertQueue) && lastAlertTime == old(lastAlertTime)
      ensures workerRunning == old(workerRunning) && spoken == old(spoken)
    {
      isSpeaking := false;
    }

    /** One pass of _tts_worker: the head leaves the queue, a text is spoken,
      the sentinel ends the loop, and is_speaking is false afterwards. */
    method WorkerStep() returns (text: Option<string>)
      requires Valid() && CanTake(Abstract())
      modifies this
      ensures Valid()
      ensures Abstract() == Step(old(Abstract()))
      ensures text == old(alertQueue)[0] && alertQueue == old(alertQueue)[1..]
      ensures !isSpeaking
      ensures workerRunning <==> text != None
      ensures spoken == old(spoken) + (if text == None then [] else [text.value])
      ensures lastAlertTime == old(lastAlertTime)
    {
      text := WorkerTake();
      if text != None {
        WorkerFinish();
      }
    }

    /** _tts_worker, run until get() would block on the empty queue or the
      sentinel ends the loop. */
    method RunWorker()
      requires Valid() && workerRunning && !isSpeaking
      modifies this
      ensures Valid()
      ensures Abstract() == Drain(old(Abstract()))
      ensures spoken == old(spoken) + TextsBeforeSentinel(old(alertQueue))
      ensures workerRunning <==> None !in old(alertQueue)
      ensures alertQueue == AfterSentinel(old(alertQueue))
      ensures !isSpeaking && lastAlertTime == old(lastAlertTime)
    {
      DrainSpeaksInOrder(Abstract());
      while workerRunning && alertQueue != []
        invariant Valid() && !isSpeaking
        invariant workerRunning ==> Drain(Abstract()) == Drain(old(Abstract()))
        invariant !workerRunning ==> Abstract() == Drain(old(Abstract()))
        decreases |alertQueue|
      {
        var text := WorkerStep();
      }
    }

    /** The enqueue part of stop(): once the queue is empty and nothing is
      being spoken, the sentinel goes in, and it is all the queue holds. */
    method Stop()
      requires Valid() && alertQueue == [] && !isSpeaking
      modifies this
      ensures Valid()
      ensures Abstract() == Dispatch.Stop(old(Abstract()))
      ensures alertQueue == [None]
      ensures lastAlertTime == old(lastAlertTime) && isSpeaking == old(isSpeaking)
      ensures workerRunning == old(workerRunning) && spoken == old(spoken)
    {
      alertQueue := alertQueue + [None];
    }
  }
}
