/** The audio half of an output device (src/device/output/audio.rs): a handle sharing the
    device record, whose calls are thin status conversions and whose `Drop` disables audio
    output and reopens the audio gate. */
module OutputAudio {
  import opened Common
  import opened SdkErrors
  import opened Sdk
  import opened OutputDevices

  class AudioOutput {
    const device: OutputDevicePtr

    /** `wrap_audio`: a handle on the shared device record. */
    constructor (device: OutputDevicePtr)
      ensures this.device == device
    {
      this.device := device;
    }

    /** `begin_audio_preroll`. */
    method BeginAudioPreroll() returns (r: Result<()>, ghost status: I32)
      modifies device.driver
      ensures r == CheckStatus(status)
      ensures device.driver.trace == old(device.driver.trace) + [OutputBeginAudioPreroll(device.dev)]
      ensures device.driver.buffers == old(device.driver.buffers)
    {
      var s := device.driver.Call(OutputBeginAudioPreroll(device.dev));
      status := s;
      r := CheckStatus(s);
    }

    /** `end_audio_preroll`. */
    method EndAudioPreroll() returns (r: Result<()>, ghost status: I32)
      modifies device.driver
      ensures r == CheckStatus(status)
      ensures device.driver.trace == old(device.driver.trace) + [OutputEndAudioPreroll(device.dev)]
      ensures device.driver.buffers == old(device.driver.buffers)
    {
      var s := device.driver.Call(OutputEndAudioPreroll(device.dev));
      status := s;
      r := CheckStatus(s);
    }

    /** `buffered_audio_sample_frame_count`: the driver's count on success. */
    method BufferedAudioSampleFrameCount() returns (r: Result<U32>, ghost status: I32, ghost count: U32)
      modifies device.driver
      ensures r == CheckStatusOr(status, count)
      ensures device.driver.trace == old(device.driver.trace)
        + [OutputGetBufferedAudioSampleFrameCount(device.dev)]
      ensures device.driver.buffers == old(device.driver.buffers)
    {
      var s, n := device.driver.CallU32(OutputGetBufferedAudioSampleFrameCount(device.dev));
      status, count := s, n;
      r := CheckStatusOr(s, n);
    }

    /** `flush_buffered_audio_samples`. */
    method FlushBufferedAudioSamples() returns (r: Result<()>, ghost status: I32)
      modifies device.driver
      ensures r == CheckStatus(status)
      ensures device.driver.trace == old(device.driver.trace)
        + [OutputFlushBufferedAudioSamples(device.dev)]
      ensures device.driver.buffers == old(device.driver.buffers)
    {
      var s := device.driver.Call(OutputFlushBufferedAudioSamples(device.dev));
      status := s;
      r := CheckStatus(s);
    }

    /** `Drop`: disable audio output, then reopen the audio gate whatever the driver
        answered. The video gate is untouched. */
    method Drop()
      modifies device`audioActive, device.driver
      ensures !device.audioActive
      ensures device.driver.trace == old(device.driver.trace)
        + [OutputDisableAudioOutput(device.dev), ClearAudioActive(device.dev)]
      ensures device.driver.buffers == old(device.driver.buffers)
    {
      var _ := device.driver.Call(OutputDisableAudioOutput(device.dev));
      device.audioActive := false;
      device.driver.Note(ClearAudioActive(device.dev));
    }
  }
}
