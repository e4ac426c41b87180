/** How the firmware picks bundle size, packet budget and Opus bitrate for the negotiated ATT MTU. */
module TransportProfile {
  import opened Bytes
  import AudioTransport

  const ATT_OVERHEAD: nat := 3
  const FRAME_MS: nat := 60
  const V1_BITRATE: nat := 20000
  const V2_MIN_BITRATE: nat := 7000
  const V2_MAX_BITRATE: nat := 12000
  const MAX_PACKET_SIZE: nat := 220
  const MAX_BUNDLE: nat := 4
  const ACK_WINDOW_BATCHES: nat := 2

  datatype Profile = Profile(version: byte, bundleSize: nat, packetBudget: nat, bitrate: nat,
                             maxInflight: nat)

  const FALLBACK := Profile(AudioTransport.V1, 1, MAX_PACKET_SIZE, V1_BITRATE, 1)

  /** The octets a notification can carry. */
  function PayloadCapacity(mtu: uint16): nat {
    if mtu > ATT_OVERHEAD then mtu - ATT_OVERHEAD else 0
  }

  /** The octets each of count packets may take; zero when the framing alone does not fit. */
  function PacketBudget(mtu: uint16, count: nat): (budget: nat)
    ensures count > 0 && budget > 0 ==> FrameSize(count, budget) <= PayloadCapacity(mtu)
    ensures count > 0 ==> FrameSize(count, budget + 1) > PayloadCapacity(mtu)
  {
    if count == 0 then 0
    else
      var capacity, framing := PayloadCapacity(mtu), AudioTransport.HEADER_SIZE + count;
      LargestFits(capacity, count);
      if capacity <= framing then 0 else (capacity - framing) / count
  }

  lemma LargestFits(capacity: nat, count: nat)
    requires count > 0
    ensures var room := capacity - (AudioTransport.HEADER_SIZE + count);
      if room <= 0 then FrameSize(count, 1) > capacity
      else FrameSize(count, room / count) <= capacity < FrameSize(count, room / count + 1)
  {
    var room := capacity - (AudioTransport.HEADER_SIZE + count);
    if room > 0 {
      DividesDown(room, count);
    }
  }

  /** The v2 frame holding count packets of size octets each. */
  function FrameSize(count: nat, size: nat): nat {
    AudioTransport.HEADER_SIZE + count + count * size
  }

  lemma DividesDown(room: nat, count: nat)
    requires count > 0
    ensures count * (room / count) <= room < count * (room / count + 1)
  {
    assert room == count * (room / count) + room % count;
    assert count * (room / count + 1) == count * (room / count) + count;
  }

  /** The constant bitrate at which a 60 ms packet stays one octet below the budget. */
  function BitrateFor(budget: nat): nat
    requires budget > 0
  {
    (budget - 1) * 8 * 1000 / FRAME_MS
  }

  predicate Usable(mtu: uint16, bundle: nat) {
    var budget := PacketBudget(mtu, bundle);
    2 <= budget <= 0xff && BitrateFor(budget) >= V2_MIN_BITRATE
  }

  /** The profile is chosen by trying bundles of 4, 3 and 2 packets; versionRequested is what the app
      negotiated. The second result says whether the link must be put back to v1. */
  method ConfigureTransportProfile(versionRequested: byte, mtu: uint16)
    returns (profile: Profile, fellBack: bool)
    ensures versionRequested < AudioTransport.V2 ==> profile == FALLBACK && !fellBack
    ensures versionRequested >= AudioTransport.V2 ==>
      (fellBack <==> forall bundle :: 2 <= bundle <= MAX_BUNDLE ==> !Usable(mtu, bundle))
    ensures fellBack ==> profile == FALLBACK
    ensures versionRequested >= AudioTransport.V2 && !fellBack ==> IsBestV2(profile, mtu)
  {
    profile := FALLBACK;
    fellBack := false;
    if versionRequested < AudioTransport.V2 {
      return;
    }
    var bundle := MAX_BUNDLE;
    while bundle >= 2
      invariant 1 <= bundle <= MAX_BUNDLE
      invariant profile == FALLBACK
      invariant forall larger :: bundle < larger <= MAX_BUNDLE ==> !Usable(mtu, larger)
    {
      var budget := PacketBudget(mtu, bundle);
      if 2 <= budget <= 0xff {
        var bitrate := (budget - 1) * 8 * 1000 / FRAME_MS;
        if bitrate >= V2_MIN_BITRATE {
          profile := Profile(AudioTransport.V2, bundle, budget,
                             if bitrate < V2_MAX_BITRATE then bitrate else V2_MAX_BITRATE,
                             bundle * ACK_WINDOW_BATCHES);
          assert Usable(mtu, bundle);
          break;
        }
      }
      bundle := bundle - 1;
    }
    if profile.version != AudioTransport.V2 {
      fellBack := true;
    }
  }

  /** What is promised of a v2 profile: it is the largest usable bundle with the largest budget that
      fits, and speech coded at its bitrate leaves an octet of every packet to spare. */
  ghost predicate IsBestV2(p: Profile, mtu: uint16) {
    && p.version == AudioTransport.V2
    && 2 <= p.bundleSize <= MAX_BUNDLE
    && Usable(mtu, p.bundleSize)
    && (forall larger :: p.bundleSize < larger <= MAX_BUNDLE ==> !Usable(mtu, larger))
    && p.packetBudget == PacketBudget(mtu, p.bundleSize)
    && V2_MIN_BITRATE <= p.bitrate <= V2_MAX_BITRATE
    && p.bitrate <= BitrateFor(p.packetBudget)
    && (p.bitrate == BitrateFor(p.packetBudget) || p.bitrate == V2_MAX_BITRATE)
    && p.maxInflight == 2 * p.bundleSize
  }

  /** Every bundle the pipeline may form fits one notification, whatever the packets' lengths. */
  lemma BundleFits(p: Profile, mtu: uint16, packets: seq<AudioTransport.Packet>)
    requires IsBestV2(p, mtu)
    requires |packets| <= p.bundleSize
    requires forall i :: 0 <= i < |packets| ==> |packets[i].payload| <= p.packetBudget
    ensures AudioTransport.HEADER_SIZE + |AudioTransport.Body(AudioTransport.V2, packets)| <= PayloadCapacity(mtu)
  {
    BodyWithin(packets, p.packetBudget);
    hide AudioTransport.Body, Usable, PayloadCapacity;
    MoreIsLarger(|packets|, p.bundleSize, p.packetBudget);
  }

  lemma MoreIsLarger(few: nat, many: nat, size: nat)
    requires few <= many
    ensures few * size <= many * size
  {
  }

  lemma {:induction false} BodyWithin(packets: seq<AudioTransport.Packet>, size: nat)
    requires forall i :: 0 <= i < |packets| ==> |packets[i].payload| <= size
    ensures |AudioTransport.Body(AudioTransport.V2, packets)| <= |packets| + |packets| * size
  {
    if packets != [] {
      BodyWithin(packets[1..], size);
      OneMore(|packets| - 1, size);
    }
  }

  lemma OneMore(count: nat, size: nat)
    ensures (count + 1) * size == count * size + size
  {
  }

  /** A 60 ms packet at the chosen constant bitrate fits the budget with an octet to spare. */
  lemma SpeechFits(p: Profile, mtu: uint16, octets: nat)
    requires IsBestV2(p, mtu)
    requires octets * 8 * 1000 <= p.bitrate * FRAME_MS
    ensures octets + 1 <= p.packetBudget
  {
  }

  /** The MTUs that get bundled audio. Above 1046 even a 4-packet budget overflows its one-octet
      length prefix, so a very large MTU falls back to v1 as a small one does. */
  lemma V2IffMtuInRange(mtu: uint16)
    ensures (exists bundle :: 2 <= bundle <= MAX_BUNDLE && Usable(mtu, bundle)) <==> 129 <= mtu <= 1046
    ensures Usable(mtu, 4) <==> 239 <= mtu <= 1046
    ensures 184 <= mtu < 239 ==> Usable(mtu, 3)
    ensures 129 <= mtu < 184 ==> Usable(mtu, 2) && !Usable(mtu, 3)
  {
    UsableIff(mtu, 2);
    UsableIff(mtu, 3);
    UsableIff(mtu, 4);
    if exists bundle :: 2 <= bundle <= MAX_BUNDLE && Usable(mtu, bundle) {
      var bundle :| 2 <= bundle <= MAX_BUNDLE && Usable(mtu, bundle);
      assert bundle == 2 || bundle == 3 || bundle == 4;
    }
  }

  lemma UsableIff(mtu: uint16, bundle: nat)
    requires 2 <= bundle <= 4
    ensures Usable(mtu, bundle) <==> 19 + 55 * bundle <= mtu < 19 + 257 * bundle
  {
    var budget := PacketBudget(mtu, bundle);
    if bundle == 2 {
    } else if bundle == 3 {
    } else {
    }
  }
}
