/**
 The set-up of recording sessions: one recorder at a time, a resampler that outlives it, and a client rate per
 session.

 The socket, the sound card and the Speex library are oracles: a `Session` holds what they answer. Each session
 runs the set-up part of `start`; those that reach the stream loop end with `stop`, which destroys the recorder but
 not the resampler, so the next recorder may find one made for another rate.
 */
module Recording {
  import opened Base

  type Rate = r: int | 0 <= r < 0x1_0000_0000

  datatype Resampler = Resampler(inRate: Rate, outRate: Rate)

  /** What speex_resampler_init gives for a pair of rates: a resampler, none, or one with an error code. */
  datatype Init = Made | Null | MadeWithError

  datatype Session = Session(
    typeRead: bool,               // the client's type word arrived
    recording: bool,              // and is RECORDING
    rateRead: bool,
    clientRate: Rate,             // the sample rate word, if it arrived
    recorder: Option<Rate>,       // what initRecoder would set up: the rate near the default, or failure
    preprocessor: bool,           // whether speex_preprocess_state_init succeeds
    init: Init
  )

  predicate Supported(rate: Rate) {
    rate == 8000 || rate == 16000 || rate == 48000
  }

  /** The worker's fields at one moment. */
  datatype View = View(recorder: Option<Rate>, resampler: Option<Resampler>, preprocessor: Option<Rate>, clientRate: Rate) {
    /** Between sessions, and at every return to accept. */
    predicate Valid() {
      && (resampler.Some? ==> resampler.value.inRate != resampler.value.outRate)
      && (preprocessor.Some? ==> preprocessor == recorder)
    }

    /** What the stream loop of session `s` relies on. */
    predicate ReadyFor(s: Session) {
      && Valid()
      && recorder.Some?
      && clientRate == (if Supported(s.clientRate) then s.clientRate else 0)
      && match resampler
         case Some(r) => clientRate != 0 && r == Resampler(recorder.value, clientRate) && r.inRate != r.outRate
         case None => clientRate == 0 || recorder.value == clientRate || !s.init.Made?
    }
  }

  class RecordingWorker {
    var mRecoder: Option<Rate>                // the recorder's sample rate
    var mSpeexResampler: Option<Resampler>
    var mSpeexPreprocesser: Option<Rate>      // the rate it was made for
    var mClientSampleRate: Rate

    function Now(): View
      reads this
    {
      View(mRecoder, mSpeexResampler, mSpeexPreprocesser, mClientSampleRate)
    }

    constructor ()
      ensures Now() == View(None, None, None, 0)
    {
      mRecoder, mSpeexResampler, mSpeexPreprocesser, mClientSampleRate := None, None, None, 0;
    }

    /** Also what `stop` does. */
    method DestroyRecorder()
      modifies this`mRecoder, this`mSpeexPreprocesser
      ensures mRecoder.None? && mSpeexPreprocesser.None?
    {
      if mRecoder.Some? {
        mRecoder := None;
      }
      if mSpeexPreprocesser.Some? {
        mSpeexPreprocesser := None;
      }
    }

    /** One pass of the accept loop up to the stream loop; false is `continue`. */
    method SetUp(s: Session) returns (enter: bool)
      requires Now().Valid()
      modifies this
      ensures Now().Valid()
      ensures enter ==> Now().ReadyFor(s)
      ensures enter <==> s.typeRead && s.recording && s.rateRead && (old(mRecoder).Some? || s.recorder.Some?)
      ensures enter ==> mRecoder == (if old(mRecoder).Some? then old(mRecoder) else s.recorder)
      ensures !enter ==>
        mSpeexResampler == old(mSpeexResampler) && mRecoder == old(mRecoder) && mSpeexPreprocesser == old(mSpeexPreprocesser)
      ensures enter ==> mClientSampleRate == if s.clientRate in {8000, 16000, 48000} then s.clientRate else 0
      ensures enter && (mClientSampleRate == 0 || !s.preprocessor) ==> mSpeexPreprocesser == old(mSpeexPreprocesser)
      ensures enter && mClientSampleRate != 0 && s.preprocessor ==> mSpeexPreprocesser == mRecoder
      ensures enter && mClientSampleRate != 0 && old(mSpeexResampler) == Some(Resampler(mRecoder.value, mClientSampleRate)) ==>
        mSpeexResampler == old(mSpeexResampler)
    {
      if !s.typeRead {
        return false;
      }
      if !s.recording {
        return false;
      }
      if !s.rateRead {
        return false;
      }
      mClientSampleRate := s.clientRate;
      if mClientSampleRate != 8000 && mClientSampleRate != 16000 && mClientSampleRate != 48000 {
        mClientSampleRate := 0;
      }
      if mRecoder.None? {
        mRecoder := Some(0);
        if s.recorder.None? {
          DestroyRecorder();
          return false;
        }
        mRecoder := s.recorder;
      }
      Convert(s);
      return true;
    }

    /** The end of the set-up: what stands between the recorder's rate and the client's. A fitting resampler is kept. */
    method Convert(s: Session)
      requires Now().Valid() && mRecoder.Some?
      modifies this`mSpeexResampler, this`mSpeexPreprocesser
      ensures Now().Valid()
      ensures match mSpeexResampler
        case Some(r) => mClientSampleRate != 0 && r == Resampler(mRecoder.value, mClientSampleRate)
        case None => mClientSampleRate == 0 || mRecoder.value == mClientSampleRate || !s.init.Made?
      ensures mClientSampleRate != 0 && old(mSpeexResampler) == Some(Resampler(mRecoder.value, mClientSampleRate)) ==>
        mSpeexResampler == old(mSpeexResampler)
      ensures mSpeexPreprocesser ==
        if mClientSampleRate != 0 && old(mSpeexPreprocesser).None? && s.preprocessor then mRecoder else old(mSpeexPreprocesser)
    {
      if mClientSampleRate == 0 {
        if mSpeexResampler.Some? {
          mSpeexResampler := None;
        }
      } else {
        if mSpeexPreprocesser.None? {
          mSpeexPreprocesser := if s.preprocessor then mRecoder else None;
        }
        if mSpeexResampler.Some? {
          var inRate, outRate := mSpeexResampler.value.inRate, mSpeexResampler.value.outRate;
          if inRate != mRecoder.value || outRate != mClientSampleRate {
            mSpeexResampler := None;
          }
        }
        if mSpeexResampler.None? && mRecoder.value != mClientSampleRate {
          mSpeexResampler := if s.init.Null? then None else Some(Resampler(mRecoder.value, mClientSampleRate));
          if s.init.MadeWithError? && mSpeexResampler.Some? {
            mSpeexResampler := None;
          }
        }
      }
    }

    /** The accept loop over any list of sessions, with the moments at which it enters the stream loop. */
    method Start(sessions: seq<Session>) returns (entries: seq<View>, which: seq<nat>)
      requires Now().Valid() && mRecoder.None?
      modifies this
      ensures Now().Valid() && mRecoder.None?
      ensures |entries| == |which|
      ensures forall i | 0 <= i < |entries| :: which[i] < |sessions| && entries[i].ReadyFor(sessions[which[i]])
      ensures forall j | 0 <= j < |sessions| :: Enters(sessions[j]) <==> j in which
    {
      entries, which := [], [];
      for j := 0 to |sessions|
        invariant Now().Valid() && mRecoder.None?
        invariant |entries| == |which|
        invariant forall i | 0 <= i < |entries| :: which[i] < j && entries[i].ReadyFor(sessions[which[i]])
        invariant forall i | 0 <= i < j :: Enters(sessions[i]) <==> i in which
      {
        var enter := SetUp(sessions[j]);
        if enter {
          entries, which := entries + [Now()], which + [j];
          DestroyRecorder();
        }
      }
    }
  }

  /** A session with a client and a working sound card, when no recorder is left over. */
  predicate Enters(s: Session) {
    s.typeRead && s.recording && s.rateRead && s.recorder.Some?
  }
}
