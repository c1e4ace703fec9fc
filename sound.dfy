/**
 * Speech feedback of the card game: the choice of an English voice and the
 * utterances queued on the platform's speech synthesiser.
 */
module Sound {
  import opened Seqs

  /** A platform voice and its BCP 47 language tag. */
  datatype Voice = Voice(name: string, lang: string)

  /** A queued utterance: text, rate, pitch, volume and chosen voice (if any). */
  datatype Utterance = Utterance(text: string, rate: real, pitch: real, volume: real,
                                 voice: Option<Voice>)

  /**
   * The first-tier test: the tag is exactly "en-US". Every such voice also
   * passes the second-tier test, so tier two never skips a tier-one voice.
   */
  predicate IsUsEnglish(v: Voice)
    ensures IsUsEnglish(v) ==> IsEnglish(v)
  {
    v.lang == "en-US"
  }

  /** The second-tier test: the tag begins with the two letters "en". */
  predicate IsEnglish(v: Voice) { |v.lang| >= 2 && v.lang[..2] == "en" }

  /**
   * The voice for announcements: the first US English voice, else the first
   * voice whose tag starts with "en", else the first voice, else none.
   */
  function EnglishVoice(voices: seq<Voice>): (r: Option<Voice>)
    ensures r.Some? <==> |voices| > 0
    ensures r.Some? ==> r.value in voices
    ensures (exists k :: 0 <= k < |voices| && IsUsEnglish(voices[k])) ==>
              exists k :: 0 <= k < |voices| && r == Some(voices[k]) && IsUsEnglish(voices[k])
                          && forall j :: 0 <= j < k ==> !IsUsEnglish(voices[j])
    ensures (forall k :: 0 <= k < |voices| ==> !IsUsEnglish(voices[k])) &&
            (exists k :: 0 <= k < |voices| && IsEnglish(voices[k])) ==>
              exists k :: 0 <= k < |voices| && r == Some(voices[k]) && IsEnglish(voices[k])
                          && forall j :: 0 <= j < k ==> !IsEnglish(voices[j])
    ensures (forall k :: 0 <= k < |voices| ==> !IsEnglish(voices[k])) && |voices| > 0 ==>
              r == Some(voices[0])
  {
    match FindFirst(voices, IsUsEnglish)
    case Some(k) => Some(voices[k])
    case None =>
      match FindFirst(voices, IsEnglish)
      case Some(k) => Some(voices[k])
      case None => if |voices| > 0 then Some(voices[0]) else None
  }

  /**
   * The colour announcement made when a pair is matched: normal rate, pitch
   * and volume, with an installed voice whenever there is one.
   */
  function ColorAnnouncement(colorName: string, voices: seq<Voice>): (u: Utterance)
    ensures u.text == "It's " + colorName + " color"
    ensures u.rate == 1.0 && u.pitch == 1.0 && u.volume == 1.0
    ensures u.voice.Some? <==> |voices| > 0
    ensures u.voice.Some? ==> u.voice.value in voices
  {
    Utterance("It's " + colorName + " color", 1.0, 1.0, 1.0, EnglishVoice(voices))
  }

  /**
   * The congratulation spoken when the game is won: a little slower and
   * higher than normal, with an installed voice whenever there is one.
   */
  function WinAnnouncement(voices: seq<Voice>): (u: Utterance)
    ensures u.text == "You Won! Great Job, Super Star!"
    ensures u.rate < 1.0 && u.pitch > 1.0 && u.volume == 1.0
    ensures u.voice.Some? <==> |voices| > 0
    ensures u.voice.Some? ==> u.voice.value in voices
  {
    Utterance("You Won! Great Job, Super Star!", 0.9, 1.1, 1.0, EnglishVoice(voices))
  }

  /**
   * The platform speech synthesiser, reduced to its installed voices and its
   * queue of utterances not yet finished (the one speaking first).
   */
  class SpeechSynthesis {
    var voices: seq<Voice>
    var queue: seq<Utterance>

    constructor (voices: seq<Voice>)
      ensures this.voices == voices && queue == []
    {
      this.voices := voices;
      queue := [];
    }

    /** `speechSynthesis.cancel()`: drops every queued utterance. */
    method Cancel()
      modifies this
      ensures queue == [] && voices == old(voices)
    {
      queue := [];
    }

    /** `speechSynthesis.speak(u)`: appends `u` to the queue. */
    method Speak(u: Utterance)
      modifies this
      ensures queue == old(queue) + [u] && voices == old(voices)
    {
      queue := queue + [u];
    }
  }

  /**
   * Announces a matched colour: cancels whatever is queued, then queues the
   * announcement. Nothing happens when the platform has no synthesiser
   * (`synth == null`).
   */
  method SpeakColor(synth: SpeechSynthesis?, colorName: string)
    modifies synth
    ensures synth != null ==> synth.voices == old(synth.voices)
    ensures synth != null ==> synth.queue == [ColorAnnouncement(colorName, synth.voices)]
    ensures synth != null ==> synth.queue[0].text == "It's " + colorName + " color"
  {
    if synth != null {
      synth.Cancel();
      var voice := EnglishVoice(synth.voices);
      synth.Speak(Utterance("It's " + colorName + " color", 1.0, 1.0, 1.0, voice));
    }
  }

  /**
   * Announces the win without cancelling: the congratulation is queued after
   * whatever is still being said. Nothing happens without a synthesiser.
   */
  method SpeakWin(synth: SpeechSynthesis?)
    modifies synth
    ensures synth != null ==> synth.voices == old(synth.voices)
    ensures synth != null ==> synth.queue == old(synth.queue) + [WinAnnouncement(synth.voices)]
    ensures synth != null ==> synth.queue[|synth.queue| - 1].text == "You Won! Great Job, Super Star!"
  {
    if synth != null {
      var voice := EnglishVoice(synth.voices);
      synth.Speak(Utterance("You Won! Great Job, Super Star!", 0.9, 1.1, 1.0, voice));
    }
  }

  /**
   * A colour announcement followed by the win announcement leaves both in
   * the queue, in that order: the win does not interrupt the colour.
   */
  method AnnounceFinalMatch(synth: SpeechSynthesis, colorName: string)
    modifies synth
    ensures synth.queue == [ColorAnnouncement(colorName, synth.voices), WinAnnouncement(synth.voices)]
  {
    SpeakColor(synth, colorName);
    SpeakWin(synth);
  }
}
