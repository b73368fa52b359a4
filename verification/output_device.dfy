/** The state an output device shares with the video and audio handles it hands out
    (src/device/output/device.rs): the driver's output pointer and one exclusivity flag per
    capability. The flags are the channel gate: `enable_*` sets a flag with `swap(true)`
    and the handle's `Drop` clears it. */
module OutputDevices {
  import opened Common
  import opened Sdk

  class OutputDevicePtr {
    const driver: Driver
    const dev: Ptr
    var videoActive: bool
    var audioActive: bool

    /** The record `wrap_device_output` builds: both capabilities free. */
    constructor (driver: Driver, dev: Ptr)
      ensures this.driver == driver && this.dev == dev
      ensures !videoActive && !audioActive
    {
      this.driver := driver;
      this.dev := dev;
      videoActive := false;
      audioActive := false;
    }
  }
}
