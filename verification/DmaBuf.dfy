/** What the image caches of the zero-copy display have in common (src/video/egl.c). */
module DmaBuf {

  const DMABUF_MAX_IMAGES := 64

  /** EGL hands out images, numbered here in the order they are made. */
  datatype Image = NoImage | Image(id: nat)
}
