/** Limits of the audio path that several parts share. */
module AudioLimits {
  const AUDIO_HZ := 96000
  const CAPTURE_US := 50000
  const START_MARGIN_US := 1000
  const TIMEOUT_MARGIN_US := 10000
  const TX_MAX_SAMPLES := 4704
  const ACQ_BYTES := 240000
}
