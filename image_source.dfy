/**
 Unity/ImageSource.cs: the result record of the propagation model, one per
 propagation path, and the operation that folds each band's geometric
 divergence back into its level before 3D audio playback (the audio engine
 applies its own distance fall-off).
 */
module Images {
  import opened Common

  /** Each band's level raised by that band's stored geometric divergence. */
  function WithDivergence(level: map<int, real>, divergence: map<int, real>): map<int, real>
    requires level.Keys <= divergence.Keys
  {
    map k | k in level :: level[k] + divergence[k]
  }

  /**
   Folding twice adds each band's divergence twice: removeDistances is not
   idempotent, so it must run exactly once per image.
   */
  lemma FoldTwiceAddsTwice(level: map<int, real>, divergence: map<int, real>)
    requires level.Keys <= divergence.Keys
    ensures var once := WithDivergence(level, divergence);
      var twice := WithDivergence(once, divergence);
      twice.Keys == level.Keys &&
      forall k :: k in twice ==> twice[k] == level[k] + 2.0 * divergence[k]
  {
  }

  /** As soon as one band has a non-zero divergence, a second fold changes the levels. */
  lemma FoldNotIdempotent(level: map<int, real>, divergence: map<int, real>, band: int)
    requires level.Keys <= divergence.Keys && band in level && divergence[band] != 0.0
    ensures WithDivergence(WithDivergence(level, divergence), divergence) != WithDivergence(level, divergence)
  {
    var once := WithDivergence(level, divergence);
    var twice := WithDivergence(once, divergence);
    assert twice[band] != once[band];
  }

  /** Subtracting the divergence again restores the levels: the fold loses nothing. */
  lemma FoldIsReversible(level: map<int, real>, divergence: map<int, real>)
    requires level.Keys <= divergence.Keys
    ensures var once := WithDivergence(level, divergence);
      (map k | k in once :: once[k] - divergence[k]) == level
  {
    var once := WithDivergence(level, divergence);
    var back := map k | k in once :: once[k] - divergence[k];
    assert back.Keys == level.Keys;
    forall k | k in back ensures back[k] == level[k] { }
  }

  class ImageSource {
    /** Where the audio source is placed. */
    var source: Vec3
    /** Per octave band: the geometric divergence that was subtracted from the level. */
    var geometricDivergence: map<int, real>
    /** Per octave band: the sound level in dB. */
    var soundLevel: map<int, real>

    constructor (position: Vec3, divergence: map<int, real>, level: map<int, real>)
      ensures source == position && geometricDivergence == divergence && soundLevel == level
    {
      source := position;
      geometricDivergence := divergence;
      soundLevel := level;
    }

    /**
     removeDistances: every band of soundLevel gets its divergence added;
     the key set, the divergence map and the position do not change. The keys
     are visited in an unspecified order, and the result is the same for every
     order. The source's indexer throws when a band has no divergence, hence
     the precondition.
     */
    method RemoveDistances()
      requires soundLevel.Keys <= geometricDivergence.Keys
      modifies this`soundLevel
      ensures soundLevel == WithDivergence(old(soundLevel), geometricDivergence)
      ensures soundLevel.Keys == old(soundLevel).Keys
      ensures forall k :: k in soundLevel ==> soundLevel[k] == old(soundLevel)[k] + geometricDivergence[k]
    {
      var pending := soundLevel.Keys;
      while pending != {}
        invariant pending <= old(soundLevel).Keys
        invariant soundLevel.Keys == old(soundLevel).Keys
        invariant forall k :: k in soundLevel ==>
          soundLevel[k] == if k in pending then old(soundLevel)[k] else old(soundLevel)[k] + geometricDivergence[k]
        decreases pending
      {
        NonEmptyHasMember(pending);
        var k :| k in pending;
        soundLevel := soundLevel[k := soundLevel[k] + geometricDivergence[k]];
        pending := pending - {k};
      }
      var folded := WithDivergence(old(soundLevel), geometricDivergence);
      assert soundLevel.Keys == folded.Keys;
      forall k | k in folded ensures soundLevel[k] == folded[k] { }
    }
  }
}
