/** Enumerations and bit-flag sets the binding declares for the device layer
    (src/device/output/enums.rs, src/device/input/enums.rs, src/device/mod.rs,
    src/device/status.rs, src/device/notification.rs, src/connectors.rs). Their numeric
    values come from the generated SDK binding, so decoding goes through a table
    (`Common.FromPrimitive`) or a bit-position map (`Common.FromBitsTruncate`) supplied by
    the caller. */
module Enums {
  /** `DecklinkOutputFrameCompletionResult`. */
  datatype CompletionResult = Completed | DisplayedLate | Dropped | Flushed

  /** `DecklinkVideoInputFlags`. */
  datatype VideoInputFlag = EnableFormatDetection | InputDualStream3D

  /** `DecklinkVideoInputFormatChangedEvents`. */
  datatype FormatChangedEvent = DisplayModeChanged | FieldDominanceChanged | ColorspaceChanged

  /** `DecklinkDetectedVideoInputFormatFlags`. */
  datatype DetectedFormatFlag = YCbCr422 | Rgb444 | DetectedDualStream3D

  /** `DecklinkDisplayModeSupport` (src/device/mod.rs). */
  datatype DisplayModeSupport = NotSupported | Supported | SupportedWithConversion

  /** `DecklinkVideoConnection`. */
  datatype VideoConnection = Sdi | Hdmi | OpticalSdi | Component | Composite | SVideo

  /** `DecklinkStatusId` (src/device/status.rs). */
  datatype StatusId =
    | DetectedVideoInputMode | DetectedVideoInputFlags | CurrentVideoInputMode
    | CurrentVideoInputPixelFormat | CurrentVideoInputFlags | CurrentVideoOutputMode
    | CurrentVideoOutputFlags | PCIExpressLinkWidth | PCIExpressLinkSpeed
    | LastVideoOutputPixelFormat | ReferenceSignalMode | ReferenceSignalFlags | DuplexMode
    | Busy | InterchangeablePanelType | VideoInputSignalLocked | ReferenceSignalLocked
    | ReceivedEDID

  /** `NotificationTopic` (src/device/notification.rs). */
  datatype NotificationTopic = PreferencesChanged | StatusChanged
}
